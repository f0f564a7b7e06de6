/**
  `applyLineLimit`: the window of a file that a read request asks for, `line`
  counting from 1 and `limit` capping the lines returned.
*/
module LineWindow {
  import opened Wrappers
  import opened Strings

  const NEWLINE := '\n'

  function Lines(content: string): (lines: seq<string>)
    ensures lines != []
  {
    Split(content, NEWLINE)
  }

  function StartOf(content: string, line: Option<Int64>): nat {
    if line.Some? && line.value > 0 then Min(line.value - 1, |Lines(content)|) else 0
  }

  /** The lines are the one way to write the content as texts without line breaks, joined by line breaks. */
  lemma LinesExactly(content: string, lines: seq<string>)
    ensures lines == Lines(content) <==>
            && lines != [] && (forall i :: 0 <= i < |lines| ==> '\n' !in lines[i])
            && Join(lines, '\n') == content
  {
    JoinSplit(content, NEWLINE);
    SplitParts(content, NEWLINE);
    if lines != [] && (forall i :: 0 <= i < |lines| ==> '\n' !in lines[i]) && Join(lines, '\n') == content {
      SplitJoin(lines, NEWLINE);
    }
  }

  /** `None` is the run-time panic of a slice whose end lies before its start. */
  function ApplyLineLimit(content: string, line: Option<Int64>, limit: Option<Int64>): Option<string> {
    var lines, start := Lines(content), StartOf(content, line);
    var end := if limit.Some? && limit.value > 0 && Wrap(start + limit.value) < |lines|
               then Wrap(start + limit.value) else |lines|;
    if start <= end then Some(Join(lines[start..end], NEWLINE)) else None
  }

  /** The call panics exactly when the first line skipped to plus the limit does not fit an `int`. */
  lemma PanicsExactlyOnOverflow(content: string, line: Option<Int64>, limit: Option<Int64>)
    ensures ApplyLineLimit(content, line, limit).None? <==>
            limit.Some? && limit.value > 0 && StartOf(content, line) + limit.value > MAX_INT64
  {
  }

  /** Asking for everything from the second line on, by way of the largest limit, panics for every file. */
  lemma LargestLimitPanics(content: string)
    ensures ApplyLineLimit(content, Some(2), Some(MAX_INT64)).None?
  {
    assert StartOf(content, Some(2)) == 1;
    PanicsExactlyOnOverflow(content, Some(2), Some(MAX_INT64));
  }

  /** Without a positive line or limit the whole file comes back. */
  lemma WholeFile(content: string, line: Option<Int64>, limit: Option<Int64>)
    requires line.None? || line.value <= 1
    requires limit.None? || limit.value <= 0 || limit.value >= |Lines(content)|
    ensures ApplyLineLimit(content, line, limit) == Some(content)
  {
    assert Lines(content)[0..|Lines(content)|] == Lines(content);
    JoinSplit(content, NEWLINE);
  }

  /** The first `n` lines and the lines from `n + 1` on are the file, cut at one newline. */
  lemma HeadAndTail(content: string, n: Int64)
    requires 0 < n < |Lines(content)| && n < MAX_INT64
    ensures var head, tail := ApplyLineLimit(content, None, Some(n)), ApplyLineLimit(content, Some(n + 1), None);
            head.Some? && tail.Some? && content == head.value + "\n" + tail.value
  {
    var lines := Lines(content);
    assert lines[0..n] + lines[n..|lines|] == lines;
    JoinConcat(lines[0..n], lines[n..|lines|], NEWLINE);
    JoinSplit(content, NEWLINE);
  }

  // ----- paging

  /** A reader's loop: pages of `k` lines, the first starting after `start` lines; `None` if any of them panics. */
  function PagesFrom(content: string, start: nat, k: Int64): Option<seq<string>>
    requires k > 0 && |Lines(content)| <= MAX_INT64
    decreases |Lines(content)| - start
  {
    if start >= |Lines(content)| then Some([])
    else
      var page := ApplyLineLimit(content, Some(start + 1), Some(k));
      var rest := PagesFrom(content, start + k, k);
      if page.None? || rest.None? then None else Some([page.value] + rest.value)
  }

  /** How many of `n` lines precede the last page, stepping by `k` from `start`. */
  function LastStart(n: nat, start: nat, k: Int64): (last: nat)
    requires k > 0 && start < n
    ensures start <= last < n <= last + k
    decreases n - start
  {
    if start + k >= n then start else LastStart(n, start + k, k)
  }

  lemma PageAt(content: string, start: nat, k: Int64)
    requires k > 0 && start < |Lines(content)| <= MAX_INT64
    ensures var lines, page := Lines(content), ApplyLineLimit(content, Some(start + 1), Some(k));
            if start + k > MAX_INT64 then page.None?
            else page == Some(Join(lines[start..Min(start + k, |lines|)], NEWLINE))
  {
  }

  /** The lines cut into pages of `k`. */
  function Pages(lines: seq<string>, start: nat, k: Int64): (pages: seq<string>)
    requires k > 0
    ensures start < |lines| ==> pages != []
    decreases |lines| - start
  {
    if start >= |lines| then []
    else [Join(lines[start..Min(start + k, |lines|)], NEWLINE)] + Pages(lines, start + k, k)
  }

  lemma {:induction false} PagesJoin(lines: seq<string>, start: nat, k: Int64)
    requires k > 0 && start < |lines|
    ensures Join(Pages(lines, start, k), NEWLINE) == Join(lines[start..], NEWLINE)
    decreases |lines| - start
  {
    if start + k >= |lines| {
      assert lines[start..|lines|] == lines[start..];
      assert Pages(lines, start + k, k) == [];
    } else {
      PagesJoin(lines, start + k, k);
      assert lines[start..start + k] + lines[start + k..] == lines[start..];
      JoinConcat(lines[start..start + k], lines[start + k..], NEWLINE);
      JoinConcat([Join(lines[start..start + k], NEWLINE)], Pages(lines, start + k, k), NEWLINE);
    }
  }

  /** One page before the rest; a panic where the page's end does not fit an `int`. */
  function PageOnto(lines: seq<string>, start: nat, k: Int64, rest: Option<seq<string>>): Option<seq<string>>
    requires k > 0 && start < |lines|
  {
    if start + k > MAX_INT64 || rest.None? then None
    else Some([Join(lines[start..Min(start + k, |lines|)], NEWLINE)] + rest.value)
  }

  /** The outcome of reading on from `start`, given the lines. */
  function Outcome(lines: seq<string>, start: nat, k: Int64): Option<seq<string>>
    requires k > 0
    decreases |lines| - start
  {
    if start >= |lines| then Some([]) else PageOnto(lines, start, k, Outcome(lines, start + k, k))
  }

  lemma {:induction false} OutcomeExactly(lines: seq<string>, start: nat, k: Int64)
    requires k > 0 && start < |lines| <= MAX_INT64
    ensures Outcome(lines, start, k) ==
            if LastStart(|lines|, start, k) + k > MAX_INT64 then None else Some(Pages(lines, start, k))
    decreases |lines| - start
  {
    if start + k < |lines| {
      OutcomeExactly(lines, start + k, k);
    } else {
      assert Outcome(lines, start + k, k) == Some([]) && Pages(lines, start + k, k) == [];
    }
  }

  lemma PageThenRest(content: string, start: nat, k: Int64)
    requires k > 0 && start < |Lines(content)| <= MAX_INT64
    ensures PagesFrom(content, start, k) == PageOnto(Lines(content), start, k, PagesFrom(content, start + k, k))
  {
    PageAt(content, start, k);
  }

  /** The reader's loop has this outcome. */
  lemma {:induction false} PagesRead(content: string, start: nat, k: Int64, lines: seq<string>)
    requires k > 0 && lines == Lines(content) && |lines| <= MAX_INT64
    ensures PagesFrom(content, start, k) == Outcome(lines, start, k)
    decreases |lines| - start
  {
    if start < |lines| {
      var rest := PagesFrom(content, start + k, k);
      PageThenRest(content, start, k);
      assert PagesFrom(content, start, k) == PageOnto(lines, start, k, rest);
      PagesRead(content, start + k, k, lines);
      assert Outcome(lines, start, k) == PageOnto(lines, start, k, rest);
    }
  }

  /**
    Reading a file page by page and joining the pages with newlines gives the file back,
    unless the last page's end does not fit an `int`, and then the reading panics.
  */
  lemma PagingRebuilds(content: string, k: Int64)
    requires k > 0 && |Lines(content)| <= MAX_INT64
    ensures var pages := PagesFrom(content, 0, k);
            if LastStart(|Lines(content)|, 0, k) + k > MAX_INT64 then pages.None?
            else pages.Some? && Join(pages.value, '\n') == content
  {
    PagesRead(content, 0, k, Lines(content));
    OutcomeExactly(Lines(content), 0, k);
    PagesJoin(Lines(content), 0, k);
    assert Lines(content)[0..] == Lines(content);
    JoinSplit(content, NEWLINE);
  }

  /** A page consists of the next `k` lines, or of the rest when fewer remain. */
  lemma PageHasItsLines(content: string, line: Int64, limit: Int64)
    requires 0 < line <= |Lines(content)| <= MAX_INT64 && limit > 0
    requires line - 1 + limit <= MAX_INT64
    ensures var page := ApplyLineLimit(content, Some(line), Some(limit));
            page.Some? && Lines(page.value) == Lines(content)[line - 1..Min(line - 1 + limit, |Lines(content)|)]
  {
    PageAt(content, line - 1, limit);
    SplitParts(content, NEWLINE);
    SplitJoin(Lines(content)[line - 1..Min(line - 1 + limit, |Lines(content)|)], NEWLINE);
  }
}
