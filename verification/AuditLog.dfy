/** The audit log of one tenant as audit/log.py appends to it, verifies it and checkpoints it. */
module AuditLog {
  import opened Wrappers
  import opened AuditChain

  datatype VerifyResult = VerifyResult(eventsChecked: nat, headNumber: int, headHash: string, problems: seq<Problem>)

  class Log {
    const tenant: string
    const digest: Digest
    /** The rows this connection sees, its own uncommitted ones included, in the order they are read. */
    var rows: seq<Event>

    constructor (tenant: string, digest: Digest)
      ensures this.tenant == tenant && this.digest == digest && rows == []
    {
      this.tenant, this.digest, rows := tenant, digest, [];
    }

    /** Append one event to the chain inside the caller's transaction. */
    method Append(content: Content) returns (number: int)
      modifies this
      ensures rows == old(rows) + [Following(digest, tenant, Head(old(rows)), content)]
      ensures number == rows[|old(rows)|].number && rows[|old(rows)|].content == content
      ensures IsChain(digest, tenant, old(rows)) ==> IsChain(digest, tenant, rows) && number == |rows|
    {
      if IsChain(digest, tenant, rows) {
        AppendingKeepsAChain(digest, tenant, rows, content);
      }
      var head := Head(rows);
      number := 1;
      var prevHash := GENESIS_HASH;
      if head.Some? {
        number := head.value.number + 1;
        prevHash := head.value.hash;
      }
      var hash := digest(Body(tenant, number, content, prevHash));
      rows := rows + [Event(number, content, prevHash, hash)];
    }

    /** Recompute the whole chain and compare it against any checkpoints given. */
    method Verify(checkpoints: seq<Checkpoint>, signer: Option<Signer>) returns (result: VerifyResult)
      ensures result.problems == Problems(digest, tenant, rows, checkpoints, signer)
      ensures result.problems == [] <==>
                IsChain(digest, tenant, rows) && forall cp | cp in checkpoints :: Honoured(rows, tenant, signer, cp)
      ensures result.eventsChecked == |rows| && result.headHash == Tip(rows)
      ensures result.headNumber == if rows == [] then 0 else rows[|rows| - 1].number
    {
      hide IsChain, Honoured, RowProblems;
      var hashes: map<int, string> := map[];
      var problems: seq<Problem> := [];
      var expected, prevHash := 1, GENESIS_HASH;
      var headNumber := 0;
      for k := 0 to |rows|
        invariant problems == ChainProblems(digest, tenant, rows[..k])
        invariant hashes == Hashes(rows[..k])
        invariant expected == Expected(rows[..k]) && prevHash == Tip(rows[..k])
        invariant headNumber == if k == 0 then 0 else rows[k - 1].number
      {
        var row := rows[k];
        assert rows[..k + 1][..k] == rows[..k];
        var found := CheckRow(expected, prevHash, row);
        problems := problems + found;
        hashes := hashes[row.number := row.hash];
        prevHash := row.hash;
        expected := row.number + 1;
        headNumber := row.number;
      }
      assert rows[..|rows|] == rows;
      var reported := CompareCheckpoints(hashes, checkpoints, signer);
      VerifiesExactlyWhen(digest, tenant, rows, checkpoints, signer);
      result := VerifyResult(|rows|, headNumber, prevHash, problems + reported);
    }

    method CheckRow(expected: int, prevHash: string, row: Event) returns (found: seq<Problem>)
      ensures found == RowProblems(digest, tenant, expected, prevHash, row)
    {
      found := [];
      if row.number != expected {
        found := found + [Gap(expected, row.number)];
      }
      if row.prevHash != prevHash {
        found := found + [DoesNotFollow(row.number)];
      }
      if digest(Body(tenant, row.number, row.content, row.prevHash)) != row.hash {
        found := found + [ContentMismatch(row.number)];
      }
    }

    method CompareCheckpoints(hashes: map<int, string>, checkpoints: seq<Checkpoint>, signer: Option<Signer>)
      returns (problems: seq<Problem>)
      ensures problems == CheckpointProblems(hashes, tenant, signer, checkpoints)
    {
      problems := [];
      for k := 0 to |checkpoints|
        invariant problems == CheckpointProblems(hashes, tenant, signer, checkpoints[..k])
      {
        var cp := checkpoints[k];
        assert checkpoints[..k + 1][..k] == checkpoints[..k];
        if cp.tenant != tenant {
          continue;
        }
        if signer.Some? {
          if signer.value(tenant, cp.number, cp.hash) != cp.signature {
            problems := problems + [BadSignature(cp.number)];
            continue;
          }
        }
        if cp.number == 0 {
          continue;
        }
        if cp.number !in hashes {
          problems := problems + [CutShort(cp.number)];
        } else if hashes[cp.number] != cp.hash {
          problems := problems + [Rewritten(cp.number)];
        }
      }
      assert checkpoints[..|checkpoints|] == checkpoints;
    }

    /** The signed head of the chain, refused when the chain does not verify. */
    method MakeCheckpoint(sign: Signer) returns (cp: Result<Checkpoint>)
      ensures cp == Issue(digest, tenant, rows, sign)
      ensures cp.Ok? <==> IsChain(digest, tenant, rows)
      ensures cp.Ok? ==> cp.value == Checkpoint(tenant, |rows|, Tip(rows), sign(tenant, |rows|, Tip(rows)))
    {
      var result := Verify([], None);
      if result.problems != [] {
        return Err;
      }
      ChainFacts(digest, tenant, rows);
      cp := Ok(Checkpoint(
        tenant, result.headNumber, result.headHash, sign(tenant, result.headNumber, result.headHash)));
    }
  }
}
