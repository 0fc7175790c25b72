/** The ingestion batch (ingestion-batch/batch/main.py): create the index, fetch every page,
    convert the pages one by one and bulk-index the documents through a buffer that is flushed
    whenever it holds at least 50 documents, then flush the remainder. */
module Ingestion {
  import opened Wrappers
  import opened Text
  import opened Processor

  const FlushThreshold := 50

  /** One bulk-index call made by the batch: the documents it sends, and whether it is the final
      flush of the remainder after the page loop. */
  datatype Flush = Flush(docs: seq<Doc>, remainder: bool)

  /** The calls the batch makes to its collaborators, in order. */
  datatype Action = CreateIndex | FetchPages | BulkIndex(docs: seq<Doc>)

  /** The exit status: 0 after a complete run, 1 after any exception. */
  const ExitOk := 0
  const ExitFailed := 1

  /** The documents of every page, page by page. */
  function PagesDocs(pages: seq<Page>, cfg: Config, quote: string -> string, encode: Encoder)
    : (perPage: seq<seq<Doc>>)
    requires cfg.Valid()
    ensures |perPage| == |pages|
  {
    seq(|pages|, i requires 0 <= i < |pages| => PageDocs(pages[i], cfg, quote, encode, i))
  }

  /** The flushes made for the remaining pages' documents when the buffer holds `buffer`. */
  function FlushesFrom(perPage: seq<seq<Doc>>, buffer: seq<Doc>): seq<Flush>
    decreases |perPage|
  {
    if |perPage| == 0 then
      (if |buffer| == 0 then [] else [Flush(buffer, true)])
    else
      var b := buffer + perPage[0];
      if |b| >= FlushThreshold then [Flush(b, false)] + FlushesFrom(perPage[1..], [])
      else FlushesFrom(perPage[1..], b)
  }

  function Flushes(perPage: seq<seq<Doc>>): seq<Flush> {
    FlushesFrom(perPage, [])
  }

  /** The documents of `fs` put end to end. */
  function FlushedDocs(fs: seq<Flush>): seq<Doc>
    decreases |fs|
  {
    if |fs| == 0 then [] else fs[0].docs + FlushedDocs(fs[1..])
  }

  function BulkActions(fs: seq<Flush>): (acts: seq<Action>)
    ensures |acts| == |fs| && forall i :: 0 <= i < |fs| ==> acts[i] == BulkIndex(fs[i].docs)
  {
    seq(|fs|, i requires 0 <= i < |fs| => BulkIndex(fs[i].docs))
  }

  /** Every document is flushed exactly once and in page order: the flushed batches put end to
      end are the buffer followed by every page's documents. */
  lemma {:induction false} FlushesConserve(perPage: seq<seq<Doc>>, buffer: seq<Doc>)
    ensures FlushedDocs(FlushesFrom(perPage, buffer)) == buffer + Flatten(perPage)
    decreases |perPage|
  {
    if |perPage| == 0 {
      if |buffer| > 0 {
        assert FlushedDocs([Flush(buffer, true)]) == buffer + FlushedDocs([]);
      }
    } else {
      var b := buffer + perPage[0];
      assert Flatten(perPage) == perPage[0] + Flatten(perPage[1..]);
      if |b| >= FlushThreshold {
        FlushesConserve(perPage[1..], []);
        var fs := [Flush(b, false)] + FlushesFrom(perPage[1..], []);
        assert fs[1..] == FlushesFrom(perPage[1..], []);
      } else {
        FlushesConserve(perPage[1..], b);
      }
    }
  }

  /** Every in-loop flush holds at least 50 documents; the flush of the remainder, if there is
      one, is the last flush and holds between 1 and 49 documents, so no bulk call is empty. */
  lemma {:induction false} FlushesSizes(perPage: seq<seq<Doc>>, buffer: seq<Doc>)
    requires |buffer| < FlushThreshold
    ensures forall i :: 0 <= i < |FlushesFrom(perPage, buffer)| && !FlushesFrom(perPage, buffer)[i].remainder ==>
      |FlushesFrom(perPage, buffer)[i].docs| >= FlushThreshold
    ensures forall i :: 0 <= i < |FlushesFrom(perPage, buffer)| && FlushesFrom(perPage, buffer)[i].remainder ==>
      i == |FlushesFrom(perPage, buffer)| - 1 && 0 < |FlushesFrom(perPage, buffer)[i].docs| < FlushThreshold
    decreases |perPage|
  {
    if |perPage| > 0 {
      var b := buffer + perPage[0];
      if |b| >= FlushThreshold {
        FlushesSizes(perPage[1..], []);
        var rest := FlushesFrom(perPage[1..], []);
        var fs := [Flush(b, false)] + rest;
        assert FlushesFrom(perPage, buffer) == fs;
        forall i | 0 <= i < |fs|
          ensures !fs[i].remainder ==> |fs[i].docs| >= FlushThreshold
          ensures fs[i].remainder ==> i == |fs| - 1 && 0 < |fs[i].docs| < FlushThreshold
        {
          if i > 0 {
            assert fs[i] == rest[i - 1];
          }
        }
      } else {
        FlushesSizes(perPage[1..], b);
        assert FlushesFrom(perPage, buffer) == FlushesFrom(perPage[1..], b);
      }
    }
  }

  /** The index of the first flush whose bulk call fails, at or after `k`; |fs| when none does. */
  function FirstFailed(fs: seq<Flush>, bulkOk: nat -> bool, k: nat): (f: nat)
    requires k <= |fs|
    ensures k <= f <= |fs|
    decreases |fs| - k
  {
    if k == |fs| then |fs| else if bulkOk(k) then FirstFailed(fs, bulkOk, k + 1) else k
  }

  /** FirstFailed finds the first failing bulk call: all calls before it succeed and it fails. */
  lemma {:induction false} FirstFailedSpec(fs: seq<Flush>, bulkOk: nat -> bool, k: nat)
    requires k <= |fs|
    ensures forall j :: k <= j < FirstFailed(fs, bulkOk, k) ==> bulkOk(j)
    ensures FirstFailed(fs, bulkOk, k) < |fs| ==> !bulkOk(FirstFailed(fs, bulkOk, k))
    decreases |fs| - k
  {
    if k < |fs| && bulkOk(k) {
      FirstFailedSpec(fs, bulkOk, k + 1);
    }
  }

  /** The bulk calls made: up to and including the first failing one. */
  function BulkCallsMade(fs: seq<Flush>, bulkOk: nat -> bool): (n: nat)
    ensures n <= |fs|
  {
    var f := FirstFailed(fs, bulkOk, 0);
    if f == |fs| then f else f + 1
  }

  lemma BulkActionsAppend(fs: seq<Flush>, flush: Flush)
    ensures BulkActions(fs + [flush]) == BulkActions(fs) + [BulkIndex(flush.docs)]
  {
  }

  /** The state of the page loop before page `i`: the flushes `done` so far, followed by those
      still to come from the buffer and the remaining pages, are all the flushes; and no bulk call
      before the next one failed. */
  ghost predicate Pending(fs: seq<Flush>, perPage: seq<seq<Doc>>, i: nat, done: seq<Flush>,
                          buffer: seq<Doc>, bulkOk: nat -> bool)
  {
    && i <= |perPage|
    && done + FlushesFrom(perPage[i..], buffer) == fs
    && FirstFailed(fs, bulkOk, 0) == FirstFailed(fs, bulkOk, |done|)
  }

  /** A page whose documents leave the buffer below the threshold only adds to the buffer. */
  lemma Carry(fs: seq<Flush>, perPage: seq<seq<Doc>>, i: nat, done: seq<Flush>, buffer: seq<Doc>,
              bulkOk: nat -> bool)
    requires Pending(fs, perPage, i, done, buffer, bulkOk) && i < |perPage|
    requires |buffer + perPage[i]| < FlushThreshold
    ensures Pending(fs, perPage, i + 1, done, buffer + perPage[i], bulkOk)
  {
    assert perPage[i..][0] == perPage[i] && perPage[i..][1..] == perPage[i + 1..];
  }

  /** A page whose documents bring the buffer to the threshold makes the next bulk call, with the
      whole buffer: when it succeeds the loop goes on with an empty buffer, when it fails it is the
      last bulk call made. */
  lemma FlushFull(fs: seq<Flush>, perPage: seq<seq<Doc>>, i: nat, done: seq<Flush>, buffer: seq<Doc>,
                  bulkOk: nat -> bool)
    requires Pending(fs, perPage, i, done, buffer, bulkOk) && i < |perPage|
    requires |buffer + perPage[i]| >= FlushThreshold
    ensures bulkOk(|done|) ==> Pending(fs, perPage, i + 1, done + [Flush(buffer + perPage[i], false)], [], bulkOk)
    ensures !bulkOk(|done|) ==>
      && FirstFailed(fs, bulkOk, 0) < |fs|
      && fs[..BulkCallsMade(fs, bulkOk)] == done + [Flush(buffer + perPage[i], false)]
  {
    assert perPage[i..][0] == perPage[i] && perPage[i..][1..] == perPage[i + 1..];
    var flush := Flush(buffer + perPage[i], false);
    assert fs == (done + [flush]) + FlushesFrom(perPage[i + 1..], []);
    assert fs[|done|] == flush;
    assert fs[..|done| + 1] == done + [flush];
  }

  /** After the last page, a non-empty buffer makes the final bulk call; then, or when the buffer
      is empty, every flush has been made. */
  lemma FlushRest(fs: seq<Flush>, perPage: seq<seq<Doc>>, done: seq<Flush>, buffer: seq<Doc>,
                  bulkOk: nat -> bool)
    requires Pending(fs, perPage, |perPage|, done, buffer, bulkOk)
    ensures |buffer| == 0 ==> FirstFailed(fs, bulkOk, 0) == |fs| && fs[..BulkCallsMade(fs, bulkOk)] == done
    ensures |buffer| > 0 ==>
      && (FirstFailed(fs, bulkOk, 0) == |fs| <==> bulkOk(|done|))
      && fs[..BulkCallsMade(fs, bulkOk)] == done + [Flush(buffer, true)]
  {
    assert perPage[|perPage|..] == [];
    assert fs[..|fs|] == fs;
    if |buffer| > 0 {
      assert fs[|done|] == Flush(buffer, true);
    }
  }

  /** Runs the batch. `indexCreated` says whether creating the index succeeds, `fetched` is what
      fetching every page gives, and `bulkOk(k)` whether the k-th bulk call succeeds. Any failure
      ends the batch with exit status 1. */
  method RunIngestion(indexCreated: bool, fetched: Result<seq<Page>, string>, bulkOk: nat -> bool,
                      cfg: Config, quote: string -> string, encode: Encoder)
    returns (status: int, actions: seq<Action>)
    requires cfg.Valid()
    ensures !indexCreated ==> status == ExitFailed && actions == [CreateIndex]
    ensures indexCreated && fetched.Failure? ==> status == ExitFailed && actions == [CreateIndex, FetchPages]
    ensures indexCreated && fetched.Success? ==>
      var fs := Flushes(PagesDocs(fetched.value, cfg, quote, encode));
      && status == (if FirstFailed(fs, bulkOk, 0) == |fs| then ExitOk else ExitFailed)
      && actions == [CreateIndex, FetchPages] + BulkActions(fs[..BulkCallsMade(fs, bulkOk)])
  {
    actions := [CreateIndex];
    if !indexCreated {
      return ExitFailed, actions;
    }
    actions := actions + [FetchPages];
    if fetched.Failure? {
      return ExitFailed, actions;
    }
    var ok, bulks := IndexPages(fetched.value, bulkOk, cfg, quote, encode);
    actions := actions + bulks;
    status := if ok then ExitOk else ExitFailed;
  }

  /** The page loop of the batch: each page's documents join the buffer, which is bulk-indexed
      whenever it holds at least 50 documents; after the last page a non-empty remainder is
      flushed. The loop stops at the first bulk call that fails. */
  method IndexPages(pages: seq<Page>, bulkOk: nat -> bool, cfg: Config, quote: string -> string, encode: Encoder)
    returns (ok: bool, bulks: seq<Action>)
    requires cfg.Valid()
    ensures var fs := Flushes(PagesDocs(pages, cfg, quote, encode));
      && ok == (FirstFailed(fs, bulkOk, 0) == |fs|)
      && bulks == BulkActions(fs[..BulkCallsMade(fs, bulkOk)])
  {
    ghost var perPage := PagesDocs(pages, cfg, quote, encode);
    ghost var fs := Flushes(perPage);
    ghost var done: seq<Flush> := [];
    var buffer: seq<Doc> := [];
    var bulkCalls := 0;
    bulks := [];
    assert perPage[0..] == perPage;
    for i := 0 to |pages|
      invariant Pending(fs, perPage, i, done, buffer, bulkOk)
      invariant bulkCalls == |done| && bulks == BulkActions(done)
    {
      var docs := ProcessPage(pages[i], cfg, quote, encode, i);
      assert docs == perPage[i];
      ghost var before := buffer;
      buffer := buffer + docs;
      if |buffer| >= FlushThreshold {
        FlushFull(fs, perPage, i, done, before, bulkOk);
        BulkActionsAppend(done, Flush(buffer, false));
        bulks := bulks + [BulkIndex(buffer)];
        if !bulkOk(bulkCalls) {
          return false, bulks;
        }
        done := done + [Flush(buffer, false)];
        bulkCalls := bulkCalls + 1;
        buffer := [];
      } else {
        Carry(fs, perPage, i, done, before, bulkOk);
      }
    }
    FlushRest(fs, perPage, done, buffer, bulkOk);
    if |buffer| > 0 {
      BulkActionsAppend(done, Flush(buffer, true));
      bulks := bulks + [BulkIndex(buffer)];
      if !bulkOk(bulkCalls) {
        return false, bulks;
      }
    }
    ok := true;
  }
}
