// The Challenge table behind optimistic versioning.
module ChallengeTable {
  import opened Results
  import opened Montante
  import opened ChallengeObject
  import opened ChallengeStore

  datatype StoreError = ChallengeNotFound | ConcurrentModification

  class ChallengeRepository {
    var rows: map<string, Row>

    constructor ()
      ensures rows == map[]
    {
      rows := map[];
    }

    // The identifiers are fresh.
    method Create(id: string, challenge: Challenge)
      requires id !in rows
      modifies this
      ensures rows == old(rows)[id := Row(challenge.config, 1, challenge.state, challenge.bank, map[])]
    {
      rows := rows[id := Row(challenge.config, 1, challenge.state, challenge.bank, map[])];
    }

    // A new object equal to what is stored, with the version a later save must name.
    method Load(id: string) returns (r: Result<(Challenge, nat), StoreError>)
      ensures r == Raised(ChallengeNotFound) <==> id !in rows
      ensures r != Raised(ConcurrentModification)
      ensures r.Ok? ==> fresh(r.value.0) && r.value.0.View() == Loaded(rows[id]) && r.value.1 == rows[id].version
    {
      if id !in rows { return Raised(ChallengeNotFound); }
      var row := rows[id];
      var steps := ReadSteps(row.steps);
      var challenge := new Challenge.Stored(row.config, row.state, row.bank, steps);
      r := Ok((challenge, row.version));
    }

    // All of the challenge is written, or - at any other version - nothing.
    method Save(id: string, challenge: Challenge, expectedVersion: nat) returns (r: Result<(), StoreError>)
      modifies this
      ensures r.Ok? <==> id in old(rows) && old(rows)[id].version == expectedVersion
      ensures r.Raised? ==> r.error == ConcurrentModification && rows == old(rows)
      ensures r.Ok? ==> rows == old(rows)[id := Written(old(rows)[id], challenge.View())]
    {
      if id !in rows || rows[id].version != expectedVersion { return Raised(ConcurrentModification); }
      var row, steps := rows[id], rows[id].steps;
      var i := 0;
      while i < |challenge.steps|
        invariant 0 <= i <= |challenge.steps|
        invariant steps == Overwrite(row.steps, challenge.steps[..i])
      {
        assert challenge.steps[..i + 1][..i] == challenge.steps[..i];
        steps := steps[challenge.steps[i].index := challenge.steps[i]];
        i := i + 1;
      }
      assert challenge.steps[..|challenge.steps|] == challenge.steps;
      rows := rows[id := Row(row.config, expectedVersion + 1, challenge.state, challenge.bank, steps)];
      r := Ok(());
    }
  }
}
