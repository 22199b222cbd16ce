/** Exactly which pauses in the data can make a difference. */
module HttpPauses {
  import opened Threads
  import opened HttpParser
  import opened HttpReaderSpec
  import T = HttpParserTheorems

  // ------------------------------------------------------------ on the bytes

  ghost predicate MisleadingAfter(data: string, p: nat) {
    || !T.NoneOf(data, p + 1, " \t")
    || |data| - p - 1 <= 8
    || (|data| - p - 1 <= 128 && T.NoneOf(data, 0, "\n"))
  }

  /** The bytes that came before the pause: the method is complete, and either so is the URI, or what has
      come of the URI can still be taken for something that fits. */
  ghost predicate Misleading(data: string) {
    exists p: nat :: T.MethodBefore(data, 0, p) && MisleadingAfter(data, p)
  }

  lemma {:induction false} FoundStays(data: string, more: string, i: nat, chars: string)
    requires i <= |data| && Find(data, i, chars).Some?
    ensures Find(data + more, i, chars) == Find(data, i, chars)
  {
    var j := Find(data, i, chars).value;
    T.FindIsFirst(data, i, chars);
    assert T.FirstOf(data + more, i, j, chars);
    T.FirstIsFound(data + more, i, j, chars);
  }

  lemma {:induction false} FoundLater(data: string, more: string, i: nat, chars: string)
    requires i <= |data| && Find(data, i, chars).None?
    ensures Find(data + more, i, chars).Some? ==> Find(data + more, i, chars).value >= |data|
  {
    T.FindIsFirst(data, i, chars);
    T.FindIsFirst(data + more, i, chars);
  }

  lemma {:induction false} FoundAtEnd(data: string, i: nat)
    requires i <= |data| && Find(data, i, " \t").None?
    ensures Find(data + " ", i, " \t") == Some(|data|)
  {
    T.FindIsFirst(data, i, " \t");
    T.FirstIsFound(data + " ", i, |data|, " \t");
  }

  /** The parse before the pause, when it has not seen the whole request. */
  predicate Paused(data: string, start: nat, f: Fields) {
    start <= |data| && ParseRequestLine(data, 0, NO_FIELDS) == Incomplete(start, f)
  }

  lemma {:induction false} MethodIs(data: string, p: nat)
    requires Find(data, 0, " \t") == Some(p)
    ensures T.FirstOf(data, 0, p, " \t")
    ensures Misleading(data) <==> p <= 8 && MisleadingAfter(data, p)
  {
    T.FindIsFirst(data, 0, " \t");
    forall o: nat | T.MethodBefore(data, 0, o) ensures o == p {
      T.FirstIsFound(data, 0, o, " \t");
    }
    assert p <= 8 ==> T.MethodBefore(data, 0, p);
  }

  lemma {:induction false} NewlineStays(data: string, more: string)
    ensures !T.NoneOf(data, 0, "\n") ==>
              Find(data + more, 0, "\n").Some? && Find(data + more, 0, "\n").value < |data|
  {
    T.FindIsFirst(data, 0, "\n");
    if Find(data, 0, "\n").Some? {
      FoundStays(data, more, 0, "\n");
    }
  }

  /** After a pause that is not misleading, going on gives what starting over would. */
  lemma {:induction false} HarmlessPause(data: string, start: nat, f: Fields, more: string)
    requires Paused(data, start, f) && !Misleading(data)
    ensures ParseRequestLine(data + more, start, f) == ParseRequestLine(data + more, 0, NO_FIELDS)
  {
    hide Find, ParseHead;
    var p := Find(data, 0, " \t");
    if p.Some? {
      MethodIs(data, p.value);
      FoundStays(data, more, 0, " \t");
      assert data[0..p.value] == (data + more)[0..p.value];
      T.FindIsFirst(data, p.value + 1, " \t");
      FoundLater(data, more, p.value + 1, " \t");
      NewlineStays(data, more);
    }
  }

  lemma {:induction false} SpaceEndsUri(data: string, p: nat, f: Fields)
    requires p < |data| && Find(data, p + 1, " \t").None? && MisleadingAfter(data, p) && f.uri.None?
    ensures var (r, o) := (ParseRequestLine(data + " ", p + 1, f), ParseUri(data + " ", p + 1, f));
            r != o && !r.Parsed? && !o.Parsed?
  {
    hide Find, ParseHead;
    T.FindIsFirst(data, p + 1, " \t");
    FoundAtEnd(data, p + 1);
    var all := data + " ";
    T.FindIsFirst(all, |all|, " \t");
    T.FindIsFirst(all, 0, "\n");
    NewlineStays(data, " ");
  }

  lemma {:induction false} NoNewlineYet(data: string, p: nat, g: Fields)
    requires p < |data| && Find(data, p + 1, " \t").Some? && ParseUri(data, p + 1, g).Incomplete?
    ensures Find(data, 0, "\n").None?
  {
    hide Find, ParseHead;
    var q, n := Find(data, p + 1, " \t").value, Find(data, 0, "\n");
    if n.Some? {
      var h := g.(uri := Copy(data, p + 1, q - (p + 1), URI_LEN));
      T.HeadNeverWaits(data, n.value + 1, h.(version := Copy(data, q + 1, n.value - (q + 1), VERSION_LEN)));
    }
  }

  lemma {:induction false} SpaceAfterUri(data: string, p: nat, g: Fields, start: nat, f: Fields)
    requires p < |data| && Find(data, p + 1, " \t").Some? && start <= |data|
    requires ParseUri(data, p + 1, g) == Incomplete(start, f)
    ensures var (r, o) := (ParseRequestLine(data + " ", start, f), ParseUri(data + " ", p + 1, g));
            r != o && !r.Parsed? && !o.Parsed?
  {
    hide Find, ParseHead;
    var all, q := data + " ", Find(data, p + 1, " \t").value;
    FoundStays(data, " ", p + 1, " \t");
    assert data[p + 1..q] == all[p + 1..q];
    NoNewlineYet(data, p, g);
    T.FindIsFirst(data, 0, "\n");
    T.FindIsFirst(all, 0, "\n");
    T.FindIsFirst(all, q + 1, " \t");
    assert start == q + 1 && all[|data|] == ' ';
    assert Find(all, q + 1, " \t").Some?;
  }

  /** After a misleading one a single space shows the difference. */
  lemma {:induction false} MisleadingPause(data: string, start: nat, f: Fields)
    requires Paused(data, start, f) && Misleading(data)
    ensures var (r, o) := (ParseRequestLine(data + " ", start, f), ParseRequestLine(data + " ", 0, NO_FIELDS));
            r != o && !r.Parsed? && !o.Parsed?
  {
    T.FindIsFirst(data, 0, " \t");
    var p := Find(data, 0, " \t").value;
    MethodIs(data, p);
    assert data[0..p] == (data + " ")[0..p];
    FoundStays(data, " ", 0, " \t");
    hide Find;
    if Find(data, p + 1, " \t").None? {
      SpaceEndsUri(data, p, NO_FIELDS.(requestMethod := Some(data[0..p])));
    } else {
      SpaceAfterUri(data, p, NO_FIELDS.(requestMethod := Some(data[0..p])), start, f);
    }
  }

  // ------------------------------------------------------------ pauses inside the head

  /** What has come of a header line can still become one that is copied, or one that is not recognised. */
  ghost predicate TailFits(tail: string) {
    && (T.Starts(tail, "host:") ==> |tail| <= 134)
    && (T.Starts(tail, "accept:") ==> |tail| <= 136)
    && (T.Starts(tail, "connection:") ==> |tail| <= 32)
  }

  /** The head has not ended, and what has come of it can still become one that can be taken apart. */
  ghost predicate OpenHead(head: string)
    requires T.Span(T.Lines(head)) <= |head|
  {
    var lines := T.Lines(head);
    && T.EndOfHead(lines).None?
    && (forall k | 0 <= k < |lines| :: T.CopyFits(lines[k]))
    && TailFits(head[T.Span(lines)..])
  }

  lemma {:induction false} FirstLine(head: string, n: nat)
    requires Find(head, 0, "\n") == Some(n)
    ensures T.Lines(head) == [head[..n]] + T.Lines(head[n + 1..])
    ensures T.Span(T.Lines(head)) == n + 1 + T.Span(T.Lines(head[n + 1..]))
  {
    hide Find;
    var rest := T.Lines(head[n + 1..]);
    assert ([head[..n]] + rest)[1..] == rest;
  }

  lemma {:induction false} NoLine(head: string)
    requires Find(head, 0, "\n").None?
    ensures T.Lines(head) == [] && T.Span(T.Lines(head)) == 0 && T.NoneOf(head, 0, "\n")
  {
    T.FindIsFirst(head, 0, "\n");
  }

  /** What follows goes on from the last line, which has no newline yet. */
  lemma {:induction false} LinesExtend(head: string, more: string)
    ensures T.Span(T.Lines(head)) <= |head|
    ensures var tail := head[T.Span(T.Lines(head))..];
            T.NoneOf(tail, 0, "\n") && T.Lines(head + more) == T.Lines(head) + T.Lines(tail + more)
    decreases |head|
  {
    hide T.Lines, T.Span, Find;
    var n := Find(head, 0, "\n");
    if n.None? {
      NoLine(head);
      assert head[0..] == head;
    } else {
      var rest, all := head[n.value + 1..], head + more;
      FoundStays(head, more, 0, "\n");
      FirstLine(head, n.value);
      FirstLine(all, n.value);
      LinesExtend(rest, more);
      assert all[n.value + 1..] == rest + more && all[..n.value] == head[..n.value];
      var k := T.Span(T.Lines(rest));
      assert rest[k..] == head[n.value + 1 + k..];
    }
  }

  /** A head that has ended is not changed by what follows. */
  lemma {:induction false} EndedStays(lines: seq<string>, more: seq<string>, start: nat, f: Fields)
    requires T.EndOfHead(lines).Some?
    ensures T.HeadOutcome(lines + more, start, f) == T.HeadOutcome(lines, start, f)
  {
    var (end, all) := (T.EndOfHead(lines).value, lines + more);
    assert all[end] == lines[end];
    assert forall k | 0 <= k < end :: all[k] == lines[k];
    assert T.EndOfHead(all) == Some(end);
    assert all[..end + 1] == lines[..end + 1] && all[..end] == lines[..end];
  }

  /** A line that has begun beyond its room does not end within it. */
  lemma {:induction false} TailGrows(tail: string, more: string)
    requires !TailFits(tail)
    ensures !T.CopyFits(tail + more) && |tail + more| > 1
  {
    assert forall k | 0 <= k < |tail| :: (tail + more)[k] == tail[k];
  }

  lemma {:induction false} FirstLineGrows(tail: string, more: string)
    requires T.NoneOf(tail, 0, "\n") && T.Lines(tail + more) != []
    ensures exists end :: T.Lines(tail + more)[0] == tail + end
  {
    T.FindIsFirst(tail, 0, "\n");
    FoundLater(tail, more, 0, "\n");
    var all, n := tail + more, Find(tail + more, 0, "\n").value;
    assert T.Lines(all)[0] == all[..n] == tail + more[..n - |tail|];
  }

  /** A head that is neither ended nor open stays so. */
  lemma {:induction false} ClosedStays(head: string, more: string)
    requires T.Span(T.Lines(head)) <= |head| && T.EndOfHead(T.Lines(head)).None? && !OpenHead(head)
    ensures !T.HeadFits(T.Lines(head + more))
  {
    hide T.Lines, T.CopyFits, TailFits;
    LinesExtend(head, more);
    var (lines, tail) := (T.Lines(head), head[T.Span(T.Lines(head))..]);
    var (rest, all) := (T.Lines(tail + more), T.Lines(head + more));
    assert forall k | 0 <= k < |lines| :: all[k] == lines[k];
    if T.EndOfHead(all).Some? && !TailFits(tail) {
      assert all[|lines|] == rest[0];
      FirstLineGrows(tail, more);
      var end :| rest[0] == tail + end;
      TailGrows(tail, end);
    }
  }

  /** Lines that fit and do not end the head, and an ending that does. */
  lemma {:induction false} EndingFits(lines: seq<string>, ending: seq<string>)
    requires T.EndOfHead(lines).None? && (forall k | 0 <= k < |lines| :: T.CopyFits(lines[k]))
    requires ending != [] && |ending[|ending| - 1]| == 1
    requires forall k | 0 <= k < |ending| - 1 :: |ending[k]| != 1 && T.CopyFits(ending[k])
    ensures T.HeadFits(lines + ending)
  {
    hide T.CopyFits;
    var all := lines + ending;
    assert all[|all| - 1] == ending[|ending| - 1];
    assert forall k | 0 <= k < |lines| :: all[k] == lines[k];
    assert forall k | |lines| <= k < |all| :: all[k] == ending[k - |lines|];
  }

  lemma {:induction false} BlankLine(line: string)
    requires T.Free(line, "\n")
    ensures T.Lines(line + "\n" + "\r\n") == [line, "\r"]
  {
    assert T.Lines("") == [] && T.Free("\r", "\n");
    hide *;
    T.OneLine("\r", "");
    assert "\r" + "\n" + "" == "\r\n";
    T.OneLine(line, "\r\n");
  }

  /** A byte more, if the line is recognised but has none for its offset. */
  lemma {:induction false} LongEnough(tail: string) returns (line: string)
    requires T.NoneOf(tail, 0, "\n") && TailFits(tail) && |tail| > 1
    ensures |tail| <= |line| <= |tail| + 1 && line[..|tail|] == tail && T.Free(line, "\n") && T.CopyFits(line)
  {
    T.OneKind(tail);
    if T.CopyFits(tail) {
      line := tail;
    } else {
      line := tail + "a";
      T.OneKind(line);
      assert forall k | 0 <= k < |tail| :: line[k] == tail[k];
    }
  }

  lemma {:induction false} EndOfShortTail(tail: string) returns (more: string)
    requires T.NoneOf(tail, 0, "\n") && |tail| <= 1
    ensures 0 < |more| <= 2 && |T.Lines(tail + more)| == 1 && |T.Lines(tail + more)[0]| == 1
  {
    assert T.Lines("") == [];
    var line := if tail == "" then "\r" else tail;
    T.OneLine(line, "");
    more := if tail == "" then "\r\n" else "\n";
    assert tail + more == line + "\n" + "";
  }

  lemma {:induction false} EndOfTail(tail: string) returns (more: string)
    requires T.NoneOf(tail, 0, "\n") && TailFits(tail)
    ensures 0 < |more| <= 4
    ensures var ending := T.Lines(tail + more);
            && ending != [] && |ending[|ending| - 1]| == 1
            && forall k | 0 <= k < |ending| - 1 :: |ending[k]| != 1 && T.CopyFits(ending[k])
  {
    hide T.Lines;
    if |tail| <= 1 {
      more := EndOfShortTail(tail);
    } else {
      var line := LongEnough(tail);
      BlankLine(line);
      more := line[|tail|..] + "\n" + "\r\n";
      assert tail + more == line + "\n" + "\r\n";
    }
  }

  /** And an open one can end. */
  lemma {:induction false} OpenCanEnd(head: string) returns (more: string)
    requires T.Span(T.Lines(head)) <= |head| && OpenHead(head)
    ensures 0 < |more| <= 4 && T.HeadFits(T.Lines(head + more))
  {
    var lines, tail := T.Lines(head), head[T.Span(T.Lines(head))..];
    LinesExtend(head, "");
    more := EndOfTail(tail);
    LinesExtend(head, more);
    hide T.Lines, T.CopyFits, TailFits;
    EndingFits(lines, T.Lines(tail + more));
  }

  // ------------------------------------------------------------ pauses after which the parser has stopped

  ghost predicate OpenAfter(data: string, n: nat)
    requires n < |data|
  {
    T.Span(T.Lines(data[n + 1..])) <= |data[n + 1..]| && OpenHead(data[n + 1..])
  }

  /** The data is a request line and an open head. */
  ghost predicate HeadOpen(data: string) {
    exists p, q, n: nat :: T.Splits(data, 0, p, q, n) && OpenAfter(data, n)
  }

  lemma {:induction false} SplitStays(data: string, more: string, p: nat, q: nat, n: nat)
    requires T.Splits(data, 0, p, q, n)
    ensures var all := data + more;
            && T.Splits(all, 0, p, q, n) && all[n + 1..] == data[n + 1..] + more
            && T.Parts(all, 0, p, q, n, NO_FIELDS) == T.Parts(data, 0, p, q, n, NO_FIELDS)
  {
    var all := data + more;
    assert forall k | 0 <= k < |data| :: all[k] == data[k];
    assert all[0..p] == data[0..p] && all[p + 1..q] == data[p + 1..q] && all[q + 1..n] == data[q + 1..n];
  }

  /** With the request line there, the head decides. */
  lemma {:induction false} HeadDecides(data: string, more: string, p: nat, q: nat, n: nat)
    requires T.Splits(data, 0, p, q, n)
    ensures var f := T.Parts(data, 0, p, q, n, NO_FIELDS);
            && ParseRequestLine(data, 0, NO_FIELDS) == T.HeadOutcome(T.Lines(data[n + 1..]), n + 1, f)
            && ParseRequestLine(data + more, 0, NO_FIELDS) == T.HeadOutcome(T.Lines(data[n + 1..] + more), n + 1, f)
  {
    SplitStays(data, more, p, q, n);
    T.SplitGivesParts(data, 0, p, q, n, NO_FIELDS);
    T.SplitGivesParts(data + more, 0, p, q, n, NO_FIELDS);
    hide ParseRequestLine, T.Lines, T.HeadOutcome;
  }

  lemma {:induction false} NotOpen(data: string, p: nat, q: nat, n: nat)
    requires T.Splits(data, 0, p, q, n) && !HeadOpen(data)
    ensures T.Span(T.Lines(data[n + 1..])) <= |data[n + 1..]| && !OpenHead(data[n + 1..])
  {
    LinesExtend(data[n + 1..], "");
    assert !OpenAfter(data, n);
  }

  lemma {:induction false} UnendedOutcome(lines: seq<string>, start: nat, f: Fields)
    requires T.EndOfHead(lines).None?
    ensures T.HeadOutcome(lines, start, f) == Undefined
  {
  }

  /** And if it is not open, whatever follows makes no difference. */
  lemma {:induction false} StoppedAtHead(data: string, more: string, p: nat, q: nat, n: nat)
    requires T.Splits(data, 0, p, q, n) && !HeadOpen(data)
    ensures ParseRequestLine(data + more, 0, NO_FIELDS) == ParseRequestLine(data, 0, NO_FIELDS)
  {
    var head, f := data[n + 1..], T.Parts(data, 0, p, q, n, NO_FIELDS);
    hide *;
    HeadDecides(data, more, p, q, n);
    NotOpen(data, p, q, n);
    LinesExtend(head, more);
    if T.EndOfHead(T.Lines(head)).Some? {
      EndedStays(T.Lines(head), T.Lines(head[T.Span(T.Lines(head))..] + more), n + 1, f);
    } else {
      ClosedStays(head, more);
      UnendedOutcome(T.Lines(head), n + 1, f);
      T.SameVerdict(T.Lines(head + more), n + 1, f);
    }
  }

  lemma {:induction false} StoppedAtLine(data: string, more: string)
    requires !ParseRequestLine(data, 0, NO_FIELDS).Incomplete?
    requires forall p, q, n: nat :: !T.Splits(data, 0, p, q, n)
    ensures ParseRequestLine(data + more, 0, NO_FIELDS) == ParseRequestLine(data, 0, NO_FIELDS) == Undefined
  {
    hide Find, ParseHead;
    var p := Find(data, 0, " \t").value;
    T.FindIsFirst(data, 0, " \t");
    FoundStays(data, more, 0, " \t");
    if p <= 8 {
      var q := Find(data, p + 1, " \t").value;
      T.FindIsFirst(data, p + 1, " \t");
      FoundStays(data, more, p + 1, " \t");
      if q - p - 1 <= 128 {
        var n := Find(data, 0, "\n").value;
        T.FindIsFirst(data, 0, "\n");
        FoundStays(data, more, 0, "\n");
        assert !T.Splits(data, 0, p, q, n);
      }
    }
  }

  /** Where the parser has stopped, without a head that is open, it has stopped for good. */
  lemma {:induction false} StoppedStays(data: string, more: string)
    requires !ParseRequestLine(data, 0, NO_FIELDS).Incomplete? && !HeadOpen(data)
    ensures ParseRequestLine(data + more, 0, NO_FIELDS) == ParseRequestLine(data, 0, NO_FIELDS)
  {
    if p, q, n: nat :| T.Splits(data, 0, p, q, n) {
      StoppedAtHead(data, more, p, q, n);
    } else {
      StoppedAtLine(data, more);
    }
  }

  /** Behind an open head the parser has left the language's rules; and yet the data can go on to be
      accepted. */
  lemma {:induction false} OpenIsUndefined(data: string) returns (more: string)
    requires HeadOpen(data)
    ensures 0 < |more| <= 4
    ensures ParseRequestLine(data, 0, NO_FIELDS).Undefined? && ParseRequestLine(data + more, 0, NO_FIELDS).Parsed?
  {
    var p, q, n: nat :| T.Splits(data, 0, p, q, n) && OpenAfter(data, n);
    var head, f := data[n + 1..], T.Parts(data, 0, p, q, n, NO_FIELDS);
    T.SplitGivesParts(data, 0, p, q, n, NO_FIELDS);
    T.SameVerdict(T.Lines(head), n + 1, f);
    more := OpenCanEnd(head);
    SplitStays(data, more, p, q, n);
    T.CompleteIsParsed(data + more, 0, p, q, n, NO_FIELDS);
  }

  // ------------------------------------------------------------ exactly which pauses matter

  /** The bytes that came before the pause are misleading to a parser that waits for more, or they are a
      request line and an open head, of which the parser does not wait for the rest. */
  ghost predicate Harmful(data: string) {
    (T.Unfinished(data, 0) && Misleading(data)) || HeadOpen(data)
  }

  /** The parser on data that comes in pieces. It is called once for each piece, until it stops. */
  function Feed(data: string, start: nat, f: Fields, pieces: seq<string>): Parse
    requires start <= |data| && pieces != []
    decreases |pieces|
  {
    ParseInBounds(data + pieces[0], start, f);
    var p := ParseRequestLine(data + pieces[0], start, f);
    if |pieces| == 1 || !p.Incomplete? then p
    else Feed(data + pieces[0], p.start, p.fields, pieces[1..])
  }

  function Concat(pieces: seq<string>): string {
    if pieces == [] then "" else pieces[0] + Concat(pieces[1..])
  }

  /** What can be told of two parses: where the cursor ends up in the head is not looked at, and outside
      the rules there is nothing to tell. */
  predicate SameParse(p: Parse, q: Parse) {
    match p
    case Undefined => q.Undefined?
    case Incomplete(_, _) => p == q
    case Parsed(_, f) => q.Parsed? && q.fields == f
  }

  predicate CutMatters(data: string, more: string) {
    !SameParse(Feed("", 0, NO_FIELDS, [data, more]), ParseRequestLine(data + more, 0, NO_FIELDS))
  }

  lemma {:induction false} FeedTwo(data: string, more: string)
    ensures var p := ParseRequestLine(data, 0, NO_FIELDS);
            && (p.Incomplete? ==> p.start <= |data|)
            && Feed("", 0, NO_FIELDS, [data, more])
            == if p.Incomplete? then ParseRequestLine(data + more, p.start, p.fields) else p
  {
    assert "" + data == data && [data, more][1..] == [more];
    ParseInBounds(data, 0, NO_FIELDS);
    hide ParseRequestLine;
  }

  lemma {:induction false} HarmlessCut(data: string, more: string)
    requires !Harmful(data)
    ensures !CutMatters(data, more)
  {
    var p := ParseRequestLine(data, 0, NO_FIELDS);
    FeedTwo(data, more);
    T.AcceptsIff(data, 0, NO_FIELDS);
    hide ParseRequestLine, T.Unfinished, Misleading, HeadOpen;
    if p.Incomplete? {
      HarmlessPause(data, p.start, p.fields, more);
    } else {
      StoppedStays(data, more);
    }
  }

  lemma {:induction false} HarmfulCut(data: string) returns (more: string)
    requires Harmful(data)
    ensures 0 < |more| <= 4 && CutMatters(data, more)
  {
    var p := ParseRequestLine(data, 0, NO_FIELDS);
    T.AcceptsIff(data, 0, NO_FIELDS);
    hide ParseRequestLine, T.Unfinished, Misleading, HeadOpen;
    if HeadOpen(data) {
      more := OpenIsUndefined(data);
    } else {
      more := " ";
      FeedTwo(data, more);
      MisleadingPause(data, p.start, p.fields);
    }
    FeedTwo(data, more);
  }

  /** A pause admits a continuation whose outcome differs from that of having all the data at once if and
      only if the bytes before it are harmful. A pause before the first blank, or inside a URI that cannot
      fit any more, or after the head, or behind a line that cannot be copied, makes no difference. */
  lemma {:induction false} PauseMattersIff(data: string)
    ensures (exists more :: CutMatters(data, more)) <==> Harmful(data)
  {
    hide CutMatters, Harmful;
    if Harmful(data) {
      var more := HarmfulCut(data);
    } else {
      forall more ensures !CutMatters(data, more) {
        HarmlessCut(data, more);
      }
    }
  }

  /** None of the pauses between the pieces is harmful. */
  ghost predicate NeverHarmed(data: string, pieces: seq<string>)
    decreases |pieces|
  {
    |pieces| > 1 ==> !Harmful(data + pieces[0]) && NeverHarmed(data + pieces[0], pieces[1..])
  }

  lemma {:induction false} HarmlessPieces(data: string, start: nat, f: Fields, pieces: seq<string>)
    requires Paused(data, start, f) && !Harmful(data) && pieces != [] && NeverHarmed(data, pieces)
    ensures Feed(data, start, f, pieces) == ParseRequestLine(data + Concat(pieces), 0, NO_FIELDS)
    decreases |pieces|
  {
    var all := data + pieces[0];
    T.AcceptsIff(data, 0, NO_FIELDS);
    ParseInBounds(all, 0, NO_FIELDS);
    hide ParseRequestLine, T.Unfinished, Misleading, HeadOpen;
    HarmlessPause(data, start, f, pieces[0]);
    var p := ParseRequestLine(all, 0, NO_FIELDS);
    assert data + Concat(pieces) == all + Concat(pieces[1..]);
    if |pieces| == 1 {
      assert all + Concat([]) == all;
    } else if p.Incomplete? {
      HarmlessPieces(all, p.start, p.fields, pieces[1..]);
    } else {
      StoppedStays(all, Concat(pieces[1..]));
    }
  }

  lemma {:induction false} NothingYet()
    ensures Paused("", 0, NO_FIELDS) && !Harmful("")
  {
  }

  /** However data is cut into any number of pieces: as long as none of the pauses between them is
      harmful, the outcome is the one of having it all at once. */
  lemma {:induction false} CutsDoNotMatter(pieces: seq<string>)
    requires pieces != [] && NeverHarmed("", pieces)
    ensures Feed("", 0, NO_FIELDS, pieces) == ParseRequestLine(Concat(pieces), 0, NO_FIELDS)
  {
    NothingYet();
    assert "" + Concat(pieces) == Concat(pieces);
    HarmlessPieces("", 0, NO_FIELDS, pieces);
  }
}
