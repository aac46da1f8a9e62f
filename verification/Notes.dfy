/** The sentences the engine writes into `truncatedMessage`. The wording itself is a parameter:
    nothing below depends on the text except where a lemma says so. */
module Notes {
  import opened Text

  datatype Wording = Wording(
    limitedTo: nat -> string,                     // "Results limited to N."
    maxResultsAdvice: string,                     // advice to raise maxResults
    cursorAdvice: string,                         // advice to pass nextCursor on
    pageCap: nat -> string,                       // pagination stopped after N pages
    capReached: nat -> string,                    // the maximum limit has been reached
    sizeNote: (nat, nat, nat, bool) -> string,    // kept, total, limit, has summary
    pageOn: nat -> string)                        // repeat with maxResults at most N

  /** `boundNote`: an earlier note without the advice the size cap makes wrong, then the size note,
      then, for a resumable step that kept rows, how to page on. */
  function BoundNote(w: Wording, prev: string, kept: nat, total: nat, limit: nat, hasSummary: bool, resumable: bool): string
  {
    var note := w.sizeNote(kept, total, limit, hasSummary) + if resumable && kept > 0 then w.pageOn(kept) else "";
    var rest := TrimSuffix(TrimSuffix(prev, w.maxResultsAdvice), w.cursorAdvice);
    if rest == "" then note else rest + " " + note
  }

  /** The cursor advice never survives a trim: following the cursor would skip the omitted rows. */
  lemma {:induction false} CursorAdviceDropped(w: Wording, n: nat, kept: nat, total: nat, limit: nat, hasSummary: bool)
    requires w.limitedTo(n) != "" && w.cursorAdvice != ""
    requires TrimSuffix(w.limitedTo(n) + w.cursorAdvice, w.maxResultsAdvice) == w.limitedTo(n) + w.cursorAdvice
    requires kept > 0
    ensures BoundNote(w, w.limitedTo(n) + w.cursorAdvice, kept, total, limit, hasSummary, true)
         == w.limitedTo(n) + " " + w.sizeNote(kept, total, limit, hasSummary) + w.pageOn(kept)
  {
    var prev := w.limitedTo(n) + w.cursorAdvice;
    assert prev[|prev| - |w.cursorAdvice|..] == w.cursorAdvice;
    assert prev[..|prev| - |w.cursorAdvice|] == w.limitedTo(n);
  }

  /** Nor does the advice to ask for more rows: it would return the same rows again. A resumable step carries
      it too, when it has no cursor to give. */
  lemma {:induction false} MaxResultsAdviceDropped(
      w: Wording, n: nat, kept: nat, total: nat, limit: nat, hasSummary: bool, resumable: bool)
    requires w.limitedTo(n) != "" && TrimSuffix(w.limitedTo(n), w.cursorAdvice) == w.limitedTo(n)
    ensures BoundNote(w, w.limitedTo(n) + w.maxResultsAdvice, kept, total, limit, hasSummary, resumable)
         == w.limitedTo(n) + " " + w.sizeNote(kept, total, limit, hasSummary) + if resumable && kept > 0 then w.pageOn(kept) else ""
  {
    var prev := w.limitedTo(n) + w.maxResultsAdvice;
    assert prev[|prev| - |w.maxResultsAdvice|..] == w.maxResultsAdvice;
    assert prev[..|prev| - |w.maxResultsAdvice|] == w.limitedTo(n);
  }
}
