/** The batch-removal utility: drop one batch's entry from `latest.json`
    after its files were deleted by hand.  The stored index, the batch id
    argument, the number typed at the prompt, the dry-run flag and the
    answer to the confirmation are inputs; the outcome is either an exit
    code or the new index to write. */
module RemoveBatch {
  import opened Prelude
  import opened Seqs
  import Publish

  type Entry = Publish.BatchSummary

  /** What a run ends in: an exit with a status and nothing written, or
      the index written back. */
  datatype Outcome = Exit(code: int) | Write(latest: Option<string>, batches: seq<Entry>)

  /** `pick_batch_interactively`: the id of entry number `choice`,
      counting from 1, or exit status 1 for a number out of range. */
  function PickBatch(batches: seq<Entry>, choice: int): (r: Result<string, int>)
    ensures r.Ok? <==> 1 <= choice <= |batches|
    ensures r.Ok? ==> r.value == batches[choice - 1].id
    ensures r.Err? ==> r.error == 1
  {
    if 1 <= choice <= |batches| then Ok(batches[choice - 1].id) else Err(1)
  }

  function Ids(batches: seq<Entry>): (r: seq<string>)
    ensures |r| == |batches| && forall i :: 0 <= i < |batches| ==> r[i] == batches[i].id
  {
    if batches == [] then [] else [batches[0].id] + Ids(batches[1..])
  }

  function Without(batches: seq<Entry>, id: string): seq<Entry> {
    Filter(batches, (b: Entry) => b.id != id)
  }

  /** The batch to remove is known: the argument names a listed batch,
      or, without one, the number typed picks an entry. */
  predicate Resolves(batches: seq<Entry>, batchId: Option<string>, choice: int) {
    if batchId.Some? then batchId.value in Ids(batches) else 1 <= choice <= |batches|
  }

  /** `main` from the fetched index on: the batch to remove comes from the
      argument, or from the prompt when there is none.  Nothing is written
      for an empty index (status 0), an invalid choice or unknown id
      (status 1), a dry run (status 0) or a declined confirmation (status
      1). */
  function RemoveBatch(batches: seq<Entry>, batchId: Option<string>, choice: int, dryRun: bool, confirm: bool): (r: Outcome)
    ensures batches == [] ==> r == Exit(0)
    ensures batchId.Some? && batchId.value !in Ids(batches) && batches != [] ==> r == Exit(1)
    ensures batchId.None? && !(1 <= choice <= |batches|) && batches != [] ==> r == Exit(1)
    ensures dryRun || !confirm ==> r.Exit?
    ensures r.Write? ==> batches != [] && !dryRun && confirm
    ensures batches != [] && Resolves(batches, batchId, choice) && dryRun ==> r == Exit(0)
    ensures batches != [] && Resolves(batches, batchId, choice) && !dryRun && !confirm ==> r == Exit(1)
    ensures batches != [] && Resolves(batches, batchId, choice) && !dryRun && confirm ==> r.Write?
  {
    if batches == [] then Exit(0)
    else
      var picked := if batchId.Some? then Ok(batchId.value) else PickBatch(batches, choice);
      if picked.Err? then Exit(1)
      else
        var id := picked.value;
        if id !in Ids(batches) then Exit(1)
        else
          var updated := Without(batches, id);
          var newLatest := if updated != [] then Some(updated[0].id) else None;
          if dryRun then Exit(0)
          else if !confirm then Exit(1)
          else Write(newLatest, updated)
  }

  /** A written index lists every entry of the other batches, in their
      order, none of the removed one, and at least one entry fewer; its
      `latest` is the first remaining id, or None when none remain. */
  lemma WrittenIndex(batches: seq<Entry>, batchId: Option<string>, choice: int, dryRun: bool, confirm: bool)
    requires RemoveBatch(batches, batchId, choice, dryRun, confirm).Write?
    ensures var r := RemoveBatch(batches, batchId, choice, dryRun, confirm);
            var id := if batchId.Some? then batchId.value else batches[choice - 1].id;
            && id in Ids(batches)
            && r.batches == Without(batches, id)
            && (forall b :: b in r.batches <==> b in batches && b.id != id)
            && |r.batches| < |batches|
            && r.latest == (if r.batches == [] then None else Some(r.batches[0].id))
  {
    var id := if batchId.Some? then batchId.value else batches[choice - 1].id;
    var keep := (b: Entry) => b.id != id;
    forall b ensures b in Without(batches, id) <==> b in batches && b.id != id {
      FilterMembers(batches, keep, b);
    }
    var i :| 0 <= i < |batches| && Ids(batches)[i] == id;
    FilterShorter(batches, keep, i);
  }

  /** Dropping an element the filter rejects shortens the list. */
  lemma {:induction false} FilterShorter(s: seq<Entry>, p: Entry -> bool, i: nat)
    requires i < |s| && !p(s[i])
    ensures |Filter(s, p)| < |s|
  {
    if i > 0 {
      FilterShorter(s[1..], p, i - 1);
    }
  }

  /** The entries written are those `cleanup_old_batches` keeps after
      deleting the one batch; unlike it, the `latest` entry is moved to
      the first remaining entry even when another batch was the latest. */
  lemma AgreesWithCleanup(batches: seq<Entry>, id: string, latest: string)
    ensures Without(batches, id) == Publish.PruneLatest(Publish.LatestJson(latest, batches), [id]).batches
  {
    FilterSameTest(batches, (b: Entry) => b.id != id, (b: Entry) => b.id !in [id]);
  }
}
