/** The head loop against a line splitter, and the parser against a renderer. */
module HttpParserTheorems {
  import opened Threads
  import opened HttpParser

  // ------------------------------------------------------------ letters

  /** The capital and the small letter at the k-th place of the alphabet. */
  predicate CaseOf(c: char, d: char, k: nat) {
    k < 26 && c == "ABCDEFGHIJKLMNOPQRSTUVWXYZ"[k] && d == "abcdefghijklmnopqrstuvwxyz"[k]
  }

  /** The same character, or the same letter in either case. */
  ghost predicate SameLetter(c: char, d: char) {
    c == d || exists k: nat :: CaseOf(c, d, k) || CaseOf(d, c, k)
  }

  /** The same text, up to the case of its letters. */
  ghost predicate SameText(s: string, t: string) {
    |s| == |t| && forall k | 0 <= k < |s| :: SameLetter(s[k], t[k])
  }

  lemma {:induction false} Alphabet(k: nat)
    requires k < 26
    ensures "ABCDEFGHIJKLMNOPQRSTUVWXYZ"[k] as int == 65 + k && "abcdefghijklmnopqrstuvwxyz"[k] as int == 97 + k
  {
  }

  lemma {:induction false} CaseIs(c: char, d: char, k: nat)
    ensures CaseOf(c, d, k) <==> k < 26 && c as int == 65 + k && d as int == 97 + k
  {
    if k < 26 {
      Alphabet(k);
    }
  }

  /** The parser's folding identifies exactly the letters that differ in case only, and leaves everything
      but capitals as it is. */
  lemma {:induction false} LowerIsCaseless(c: char, d: char)
    ensures Lower(c) == Lower(d) <==> SameLetter(c, d)
    ensures !('A' <= d <= 'Z') ==> Lower(d) == d
  {
    forall k: nat ensures CaseOf(c, d, k) <==> k < 26 && c as int == 65 + k && d as int == 97 + k {
      CaseIs(c, d, k);
    }
    forall k: nat ensures CaseOf(d, c, k) <==> k < 26 && d as int == 65 + k && c as int == 97 + k {
      CaseIs(d, c, k);
    }
    if 'A' <= c <= 'Z' && Lower(c) == d {
      assert CaseOf(c, d, c as int - 65);
    }
    if 'A' <= d <= 'Z' && Lower(d) == c {
      assert CaseOf(d, c, d as int - 65);
    }
  }

  /** Against text without capitals, folding and comparing is comparing up to case. */
  lemma {:induction false} FoldedIs(c: char, d: char)
    requires !('A' <= d <= 'Z')
    ensures Lower(c) == d <==> SameLetter(c, d)
  {
    LowerIsCaseless(c, d);
  }

  // ------------------------------------------------------------ lines

  /** The newline-terminated lines of the data, without their newlines. */
  function Lines(data: string): seq<string> {
    match Find(data, 0, "\n")
    case None => []
    case Some(n) => [data[..n]] + Lines(data[n + 1..])
  }

  /** How many bytes the lines take up, newlines included. */
  function Span(lines: seq<string>): nat {
    if lines == [] then 0 else |lines[0]| + 1 + Span(lines[1..])
  }

  /** The index of the first line that ends the head: one byte, whichever it is. */
  function EndOfHead(lines: seq<string>): (r: Option<nat>)
    ensures r.Some? ==> r.value < |lines| && |lines[r.value]| == 1
    ensures r.Some? ==> forall k | 0 <= k < r.value :: |lines[k]| != 1
    ensures r.None? ==> forall k | 0 <= k < |lines| :: |lines[k]| != 1
  {
    if lines == [] then None
    else if |lines[0]| == 1 then Some(0)
    else match EndOfHead(lines[1..])
         case None => None
         case Some(k) => Some(k + 1)
  }

  ghost predicate Starts(line: string, lit: string) {
    |lit| <= |line| && forall k | 0 <= k < |lit| :: SameLetter(line[k], lit[k])
  }

  /** The value of the last line that starts with lit, cut `skip` bytes in. */
  ghost function LastValue(lines: seq<string>, lit: string, skip: nat, before: Option<string>): Option<string> {
    if lines == [] then before
    else
      var last := lines[|lines| - 1];
      if Starts(last, lit) && skip <= |last| then Some(last[skip..])
      else LastValue(lines[..|lines| - 1], lit, skip, before)
  }

  /** The line's copy, if it makes one, is long enough for its fixed offset and fits its field. */
  ghost predicate CopyFits(line: string) {
    && (Starts(line, "host:") ==> 6 <= |line| <= 134)
    && (Starts(line, "accept:") ==> 8 <= |line| <= 136)
    && (Starts(line, "connection:") ==> 12 <= |line| <= 32)
  }

  ghost function HeadFields(lines: seq<string>, f: Fields): Fields {
    f.(host := LastValue(lines, "host:", 6, f.host),
       accept := LastValue(lines, "accept:", 8, f.accept),
       conn := LastValue(lines, "connection:", 12, f.conn))
  }

  /** What the lines say the head loop makes of the data from `start` on. */
  ghost function HeadOutcome(lines: seq<string>, start: nat, f: Fields): Parse {
    var end := EndOfHead(lines);
    if end.Some? && (forall k | 0 <= k < end.value :: CopyFits(lines[k])) then
      Parsed(start + Span(lines[..end.value + 1]), HeadFields(lines[..end.value], f))
    else Undefined
  }

  lemma {:induction false} HeadRunsOut(start: nat, f: Fields)
    ensures HeadOutcome([], start, f) == Undefined
  {
  }

  lemma {:induction false} HeadEnds(line: string, rest: seq<string>, start: nat, f: Fields)
    requires |line| == 1
    ensures HeadOutcome([line] + rest, start, f) == Parsed(start + 2, f)
  {
    var lines := [line] + rest;
    assert lines[0] == line && lines[..1] == [line] && lines[..0] == [];
    assert Span([line]) == |line| + 1 + Span([line][1..]);
    assert EndOfHead(lines) == Some(0) && HeadFields([], f) == f;
  }

  lemma {:induction false} HeadFails(line: string, rest: seq<string>, start: nat, f: Fields)
    requires |line| != 1 && !CopyFits(line)
    ensures HeadOutcome([line] + rest, start, f) == Undefined
  {
    assert ([line] + rest)[0] == line && ([line] + rest)[1..] == rest;
  }

  /** What one recognised or unrecognised line does to the fields. */
  ghost function LineFields(line: string, f: Fields): Fields {
    if Starts(line, "host:") && |line| >= 6 then f.(host := Some(line[6..]))
    else if Starts(line, "accept:") && |line| >= 8 then f.(accept := Some(line[8..]))
    else if Starts(line, "connection:") && |line| >= 12 then f.(conn := Some(line[12..]))
    else f
  }

  lemma {:induction false} OneKind(line: string)
    ensures Starts(line, "host:") ==> !Starts(line, "accept:") && !Starts(line, "connection:")
    ensures Starts(line, "accept:") ==> !Starts(line, "connection:")
  {
    assert "host:"[0] == 'h' && "accept:"[0] == 'a' && "connection:"[0] == 'c';
    if |line| > 0 {
      FoldedIs(line[0], 'h');
      FoldedIs(line[0], 'a');
      FoldedIs(line[0], 'c');
    }
    hide SameLetter, Lower;
  }

  lemma {:induction false} LastValueCons(line: string, rest: seq<string>, lit: string, skip: nat,
                                         before: Option<string>)
    ensures LastValue([line] + rest, lit, skip, before)
         == LastValue(rest, lit, skip, if Starts(line, lit) && skip <= |line| then Some(line[skip..]) else before)
  {
    var all := [line] + rest;
    if rest == [] {
      assert all[..0] == [] && all[0] == line;
    } else {
      assert all[|all| - 1] == rest[|rest| - 1] && all[..|all| - 1] == [line] + rest[..|rest| - 1];
      LastValueCons(line, rest[..|rest| - 1], lit, skip, before);
    }
  }

  lemma {:induction false} HeadStep(line: string, rest: seq<string>, k: nat, f: Fields)
    requires k < |rest|
    ensures HeadFields(([line] + rest)[..k + 1], f) == HeadFields(rest[..k], LineFields(line, f))
    ensures Span(([line] + rest)[..k + 2]) == |line| + 1 + Span(rest[..k + 1])
  {
    OneKind(line);
    var lines := [line] + rest;
    assert lines[..k + 1] == [line] + rest[..k] && lines[..k + 2] == [line] + rest[..k + 1];
    assert lines[..k + 2][1..] == rest[..k + 1];
    LastValueCons(line, rest[..k], "host:", 6, f.host);
    LastValueCons(line, rest[..k], "accept:", 8, f.accept);
    LastValueCons(line, rest[..k], "connection:", 12, f.conn);
  }

  lemma {:induction false} EndShifts(line: string, rest: seq<string>)
    requires |line| != 1
    ensures EndOfHead([line] + rest)
         == match EndOfHead(rest)
            case None => None
            case Some(k) => Some(k + 1)
  {
    assert ([line] + rest)[1..] == rest;
  }

  lemma {:induction false} FitsShift(line: string, rest: seq<string>, k: nat)
    requires CopyFits(line) && k <= |rest|
    ensures (forall i | 0 <= i < k + 1 :: CopyFits(([line] + rest)[i]))
            <==> (forall i | 0 <= i < k :: CopyFits(rest[i]))
  {
    hide CopyFits;
    var lines := [line] + rest;
    assert forall i | 1 <= i < k + 1 :: lines[i] == rest[i - 1];
    assert forall i | 0 <= i < k :: rest[i] == lines[i + 1];
  }

  lemma {:induction false} HeadGoesOn(line: string, rest: seq<string>, start: nat, f: Fields)
    requires |line| != 1 && CopyFits(line)
    ensures HeadOutcome([line] + rest, start, f) == HeadOutcome(rest, start + |line| + 1, LineFields(line, f))
  {
    hide CopyFits, HeadFields, LineFields, Span, EndOfHead;
    EndShifts(line, rest);
    var e := EndOfHead(rest);
    if e.Some? {
      HeadStep(line, rest, e.value, f);
      FitsShift(line, rest, e.value);
    }
  }

  lemma {:induction false} HeadCompose(line: string, rest: seq<string>, start: nat, f: Fields, whole: Parse,
                                       next: Parse)
    requires whole == if |line| == 1 then Parsed(start + 2, f) else if CopyFits(line) then next else Undefined
    requires next == HeadOutcome(rest, start + |line| + 1, LineFields(line, f))
    ensures whole == HeadOutcome([line] + rest, start, f)
  {
    if |line| == 1 {
      HeadEnds(line, rest, start, f);
    } else if CopyFits(line) {
      HeadGoesOn(line, rest, start, f);
    } else {
      HeadFails(line, rest, start, f);
    }
  }

  /** A comparison at the start of a line never gets past the line's end. */
  lemma {:induction false} MatchesIsStarts(data: string, start: nat, n: nat, lit: string)
    requires start <= n < |data| && data[n] == '\n'
    requires forall k | 0 <= k < |lit| :: lit[k] != '\n' && !('A' <= lit[k] <= 'Z')
    ensures Matches(data, start, lit) <==> Starts(data[start..n], lit)
  {
    var line := data[start..n];
    forall k | 0 <= k < |lit| && start + k < |data|
      ensures Lower(data[start + k]) == lit[k] <==> SameLetter(data[start + k], lit[k])
    {
      FoldedIs(data[start + k], lit[k]);
    }
    assert Lower('\n') == '\n';
    hide SameLetter, Lower;
    if n < start + |lit| {
      assert lit[n - start] != '\n' && data[start + (n - start)] == '\n';
    } else {
      assert forall k | 0 <= k < |lit| :: line[k] == data[start + k];
    }
  }

  /** Each of the names is recognised as the line splitter would. */
  lemma {:induction false} NamesMatch(data: string, start: nat, n: nat)
    requires start <= n < |data| && data[n] == '\n'
    ensures Matches(data, start, "host:") <==> Starts(data[start..n], "host:")
    ensures Matches(data, start, "accept:") <==> Starts(data[start..n], "accept:")
    ensures Matches(data, start, "connection:") <==> Starts(data[start..n], "connection:")
  {
    hide Matches, Starts;
    MatchesIsStarts(data, start, n, "host:");
    MatchesIsStarts(data, start, n, "accept:");
    MatchesIsStarts(data, start, n, "connection:");
  }

  /** What the copy of a line from a fixed offset is. */
  lemma {:induction false} CopyIs(data: string, start: nat, n: nat, skip: nat, room: nat)
    requires start <= n < |data|
    ensures var line := data[start..n];
            Copy(data, start + skip, n - start - skip, room)
            == if skip <= |line| <= skip + room then Some(line[skip..]) else None
  {
    if skip <= n - start {
      assert data[start + skip..n] == data[start..n][skip..];
    }
  }

  lemma {:induction false} HeaderLineIs(data: string, start: nat, n: nat, f: Fields)
    requires start <= n < |data| && data[n] == '\n'
    ensures var line := data[start..n];
            HeaderLine(data, start, n - start, f) == if CopyFits(line) then Some(LineFields(line, f)) else None
  {
    hide Starts, Matches, Copy;
    OneKind(data[start..n]);
    NamesMatch(data, start, n);
    CopyIs(data, start, n, 6, HOST_LEN);
    CopyIs(data, start, n, 8, ACCEPT_LEN);
    CopyIs(data, start, n, 12, CONN_LEN);
  }

  /** One turn of the head loop, in terms of the line it looks at. */
  lemma {:induction false} HeadTurn(data: string, start: nat, f: Fields)
    requires start <= |data|
    ensures match Find(data, start, "\n")
            case None => ParseHead(data, start, f) == Undefined
            case Some(n) =>
              var line := data[start..n];
              ParseHead(data, start, f) ==
              if |line| == 1 then Parsed(n + 1, f)
              else if CopyFits(line) then ParseHead(data, n + 1, LineFields(line, f))
              else Undefined
  {
    var end := Find(data, start, "\n");
    if end.Some? {
      HeaderLineIs(data, start, end.value, f);
    }
  }

  lemma {:induction false} LinesOfSuffix(data: string, start: nat, r: Option<nat>)
    requires start <= |data| && r == Find(data[start..], 0, "\n")
    ensures Lines(data[start..]) == match r
                                    case None => []
                                    case Some(k) => [data[start..start + k]] + Lines(data[start + k + 1..])
  {
    hide Find;
    if r.Some? {
      var suffix, k := data[start..], r.value;
      assert suffix[..k] == data[start..start + k];
      assert suffix[k + 1..] == data[start + k + 1..];
    }
  }

  lemma {:induction false} FindShift(data: string, start: nat, i: nat, chars: string)
    requires start + i <= |data|
    ensures var r := Find(data[start..], i, chars);
            Find(data, start + i, chars) == if r.None? then None else Some(start + r.value)
    decreases |data| - i
  {
    if start + i < |data| {
      assert data[start..][i] == data[start + i];
      FindShift(data, start, i + 1, chars);
    }
  }

  /** Looking in a suffix finds what looking in the whole from there finds. */
  lemma {:induction false} FindInSuffix(data: string, start: nat, chars: string)
    requires start <= |data|
    ensures Find(data, start, chars) == match Find(data[start..], 0, chars)
                                        case None => None
                                        case Some(k) => Some(start + k)
  {
    FindShift(data, start, 0, chars);
  }

  lemma {:induction false} LinesTurn(data: string, start: nat)
    requires start <= |data|
    ensures Lines(data[start..]) == match Find(data, start, "\n")
                                    case None => []
                                    case Some(n) => [data[start..n]] + Lines(data[n + 1..])
  {
    hide *;
    FindInSuffix(data, start, "\n");
    LinesOfSuffix(data, start, Find(data[start..], 0, "\n"));
  }

  /** The head loop, in terms of lines: it is defined exactly when there is a line of one byte and
      every recognised line before it can be copied; it then stops just past that line, and each
      field holds the copy from the last line that matches it. */
  lemma {:induction false} HeadRefinesLines(data: string, start: nat, f: Fields)
    requires start <= |data|
    ensures ParseHead(data, start, f) == HeadOutcome(Lines(data[start..]), start, f)
    decreases |data| - start
  {
    hide *;
    HeadTurn(data, start, f);
    LinesTurn(data, start);
    var end := Find(data, start, "\n");
    if end.Some? {
      var line := data[start..end.value];
      var g := LineFields(line, f);
      HeadRefinesLines(data, end.value + 1, g);
      HeadCompose(line, Lines(data[end.value + 1..]), start, f, ParseHead(data, start, f),
                  ParseHead(data, end.value + 1, g));
    } else {
      HeadRunsOut(start, f);
    }
  }

  // ------------------------------------------------------------ what is accepted

  /** Position j is the first at or after i that holds one of the characters. */
  ghost predicate FirstOf(data: string, i: nat, j: nat, chars: string) {
    i <= j < |data| && data[j] in chars && forall k | i <= k < j :: data[k] !in chars
  }

  ghost predicate NoneOf(data: string, i: nat, chars: string) {
    forall k | i <= k < |data| :: data[k] !in chars
  }

  lemma {:induction false} FindIsFirst(data: string, i: nat, chars: string)
    requires i <= |data|
    ensures match Find(data, i, chars)
            case None => NoneOf(data, i, chars)
            case Some(j) => FirstOf(data, i, j, chars)
    decreases |data| - i
  {
    if i < |data| && data[i] !in chars {
      FindIsFirst(data, i + 1, chars);
    }
  }

  lemma {:induction false} FirstIsFound(data: string, i: nat, j: nat, chars: string)
    requires FirstOf(data, i, j, chars)
    ensures Find(data, i, chars) == Some(j)
  {
    FindIsFirst(data, i, chars);
  }

  /** The blank at q is the next one after the blank at p, and what is between them fits. */
  ghost predicate UriBetween(data: string, p: nat, q: nat) {
    FirstOf(data, p + 1, q, " \t") && q - p - 1 <= 128
  }

  /** The blank at p is the first one from the cursor on, and what is before it fits. */
  ghost predicate MethodBefore(data: string, start: nat, p: nat) {
    FirstOf(data, start, p, " \t") && p - start <= 8
  }

  /** From the cursor on: method, blank, URI, blank, and, up to the first newline of all the data,
      version; each part fits its field. */
  ghost predicate Splits(data: string, start: nat, p: nat, q: nat, n: nat) {
    && MethodBefore(data, start, p) && UriBetween(data, p, q)
    && FirstOf(data, 0, n, "\n") && 0 <= n - q - 1 <= 16
  }

  function Parts(data: string, start: nat, p: nat, q: nat, n: nat, f: Fields): Fields
    requires start <= p < q < n < |data|
  {
    f.(requestMethod := Some(data[start..p]), uri := Some(data[p + 1..q]), version := Some(data[q + 1..n]))
  }

  ghost predicate UnfinishedAfter(data: string, p: nat) {
    || NoneOf(data, p + 1, " \t")
    || (NoneOf(data, 0, "\n") && exists q: nat :: UriBetween(data, p, q))
  }

  /** What has arrived fits, and there is no second blank in it from the cursor on, or no newline. */
  ghost predicate Unfinished(data: string, start: nat) {
    || NoneOf(data, start, " \t")
    || exists p: nat :: MethodBefore(data, start, p) && UnfinishedAfter(data, p)
  }

  /** The head ends among the lines, and what is recognised before its end can be copied. */
  ghost predicate HeadFits(lines: seq<string>) {
    var end := EndOfHead(lines);
    end.Some? && forall k | 0 <= k < end.value :: CopyFits(lines[k])
  }

  ghost predicate Complete(data: string, start: nat, p: nat, q: nat, n: nat) {
    Splits(data, start, p, q, n) && HeadFits(Lines(data[n + 1..]))
  }

  lemma {:induction false} SplitGivesHead(data: string, start: nat, p: nat, q: nat, n: nat, f: Fields)
    requires Splits(data, start, p, q, n)
    ensures ParseRequestLine(data, start, f) == ParseHead(data, n + 1, Parts(data, start, p, q, n, f))
  {
    hide Find, ParseHead;
    FirstIsFound(data, start, p, " \t");
    FirstIsFound(data, p + 1, q, " \t");
    FirstIsFound(data, 0, n, "\n");
  }

  /** A first line that splits gives its parts, and the parser goes on to the lines that follow. */
  lemma {:induction false} SplitGivesParts(data: string, start: nat, p: nat, q: nat, n: nat, f: Fields)
    requires Splits(data, start, p, q, n)
    ensures ParseRequestLine(data, start, f)
         == HeadOutcome(Lines(data[n + 1..]), n + 1, Parts(data, start, p, q, n, f))
  {
    hide ParseRequestLine, ParseHead, HeadOutcome, Lines;
    SplitGivesHead(data, start, p, q, n, f);
    HeadRefinesLines(data, n + 1, Parts(data, start, p, q, n, f));
  }

  lemma {:induction false} SameVerdict(lines: seq<string>, start: nat, f: Fields)
    ensures HeadOutcome(lines, start, f).Parsed? <==> HeadFits(lines)
    ensures !HeadOutcome(lines, start, f).Incomplete?
  {
  }

  lemma {:induction false} CompleteIsParsed(data: string, start: nat, p: nat, q: nat, n: nat, f: Fields)
    requires Complete(data, start, p, q, n)
    ensures ParseRequestLine(data, start, f).Parsed?
  {
    hide ParseRequestLine, Lines, HeadFits, HeadOutcome;
    SplitGivesParts(data, start, p, q, n, f);
    SameVerdict(Lines(data[n + 1..]), n + 1, Parts(data, start, p, q, n, f));
  }

  /** Where the parser does not stop at a copy, the line splits. */
  lemma {:induction false} ParsedSplits(data: string, start: nat, f: Fields) returns (p: nat, q: nat, n: nat)
    requires start <= |data| && ParseRequestLine(data, start, f).Parsed?
    ensures Splits(data, start, p, q, n)
  {
    p, n := Find(data, start, " \t").value, Find(data, 0, "\n").value;
    q := Find(data, p + 1, " \t").value;
    hide Find, ParseHead;
    FindIsFirst(data, start, " \t");
    FindIsFirst(data, 0, "\n");
    FindIsFirst(data, p + 1, " \t");
  }

  lemma {:induction false} ParsedIsComplete(data: string, start: nat, f: Fields)
    requires start <= |data| && ParseRequestLine(data, start, f).Parsed?
    ensures exists p, q, n: nat :: Complete(data, start, p, q, n)
  {
    hide ParseRequestLine, Lines, HeadFits, HeadOutcome;
    var p, q, n := ParsedSplits(data, start, f);
    SplitGivesParts(data, start, p, q, n, f);
    SameVerdict(Lines(data[n + 1..]), n + 1, Parts(data, start, p, q, n, f));
    assert Complete(data, start, p, q, n);
  }

  lemma {:induction false} HeadNeverWaits(data: string, start: nat, f: Fields)
    requires start <= |data|
    ensures !ParseHead(data, start, f).Incomplete?
  {
    HeadRefinesLines(data, start, f);
    hide HeadOutcome, Lines;
    SameVerdict(Lines(data[start..]), start, f);
  }

  lemma {:induction false} WaitsAfterIff(data: string, p: nat, f: Fields)
    requires p < |data|
    ensures ParseUri(data, p + 1, f).Incomplete? <==> UnfinishedAfter(data, p)
  {
    hide Find, ParseHead;
    FindIsFirst(data, p + 1, " \t");
    FindIsFirst(data, 0, "\n");
    forall q: nat | UriBetween(data, p, q) ensures Find(data, p + 1, " \t") == Some(q) {
      FirstIsFound(data, p + 1, q, " \t");
    }
    var q, n := Find(data, p + 1, " \t"), Find(data, 0, "\n");
    if q.Some? && n.Some? {
      var c := Copy(data, q.value + 1, n.value - (q.value + 1), VERSION_LEN);
      HeadNeverWaits(data, n.value + 1, f.(uri := Copy(data, p + 1, q.value - (p + 1), URI_LEN), version := c));
    } else if q.Some? {
      assert UriBetween(data, p, q.value) <==> q.value - p - 1 <= 128;
    }
  }

  lemma {:induction false} WaitsIff(data: string, start: nat, f: Fields)
    requires start <= |data|
    ensures ParseRequestLine(data, start, f).Incomplete? <==> Unfinished(data, start)
  {
    hide Find, ParseHead;
    FindIsFirst(data, start, " \t");
    forall p: nat | MethodBefore(data, start, p) ensures Find(data, start, " \t") == Some(p) {
      FirstIsFound(data, start, p, " \t");
    }
    var p := Find(data, start, " \t");
    if p.Some? && p.value - start <= 8 {
      WaitsAfterIff(data, p.value, f.(requestMethod := Copy(data, start, p.value - start, METHOD_LEN)));
    }
  }

  /** What has arrived is neither complete nor unfinished. */
  ghost predicate Unparsable(data: string, start: nat) {
    !Unfinished(data, start) && !exists p, q, n: nat :: Complete(data, start, p, q, n)
  }

  /** From any cursor, first or resumed, the parser accepts exactly the data in which a line that splits
      is followed by a head that can be taken apart; it waits for more exactly when what has arrived is
      unfinished; everything else takes it outside the language's rules. */
  lemma {:induction false} AcceptsIff(data: string, start: nat, f: Fields)
    requires start <= |data|
    ensures ParseRequestLine(data, start, f).Parsed? <==> exists p, q, n: nat :: Complete(data, start, p, q, n)
    ensures ParseRequestLine(data, start, f).Incomplete? <==> Unfinished(data, start)
  {
    hide *;
    forall p, q, n: nat | Complete(data, start, p, q, n) ensures ParseRequestLine(data, start, f).Parsed? {
      CompleteIsParsed(data, start, p, q, n, f);
    }
    if ParseRequestLine(data, start, f).Parsed? {
      ParsedIsComplete(data, start, f);
    }
    WaitsIff(data, start, f);
  }

  // ------------------------------------------------------------ round trip

  datatype Header = Header(name: string, value: string)

  datatype Request = Request(verb: string, uri: string, version: string, headers: seq<Header>, body: string)

  function RenderHeader(h: Header): string {
    h.name + ": " + h.value + "\r"
  }

  function RenderHeaders(hs: seq<Header>): string {
    if hs == [] then "" else RenderHeader(hs[0]) + "\n" + RenderHeaders(hs[1..])
  }

  /** Everything before the body. */
  function RenderHead(r: Request): string {
    r.verb + " " + r.uri + " " + r.version + "\r" + "\n" + RenderHeaders(r.headers) + "\r" + "\n"
  }

  function Render(r: Request): string {
    RenderHead(r) + r.body
  }

  predicate Free(s: string, chars: string) {
    forall c | c in s :: c !in chars
  }

  /** A header whose name is `name` in any case has a value that fits. */
  ghost predicate ValueFits(h: Header, name: string, room: nat) {
    SameText(h.name, name) ==> |h.value| + 1 <= room
  }

  ghost predicate HeaderOk(h: Header) {
    && Free(h.name, ":\n") && Free(h.value, "\n")
    && ValueFits(h, "host", 128) && ValueFits(h, "accept", 128)
    && ValueFits(h, "connection", 20)
  }

  ghost predicate WellFormed(r: Request) {
    && Free(r.verb, " \t\n") && |r.verb| <= 8
    && Free(r.uri, " \t\n") && |r.uri| <= 128
    && Free(r.version, "\n") && |r.version| + 1 <= 16
    && (forall i | 0 <= i < |r.headers| :: HeaderOk(r.headers[i]))
  }

  /** The value of the last header with the name, in any case, with the carriage return that the
      parser leaves on it. */
  ghost function LastHeader(hs: seq<Header>, name: string): Option<string> {
    if hs == [] then None
    else
      var h := hs[|hs| - 1];
      if SameText(h.name, name) then Some(h.value + "\r") else LastHeader(hs[..|hs| - 1], name)
  }

  function AfterRequestLine(r: Request): string {
    RenderHeaders(r.headers) + "\r" + "\n" + r.body
  }

  lemma {:induction false} RenderParts(r: Request)
    ensures Render(r) == r.verb + " " + r.uri + " " + r.version + "\r" + "\n" + AfterRequestLine(r)
    ensures var start := |r.verb| + |r.uri| + |r.version| + 4;
            && start <= |Render(r)| && Render(r)[start..] == AfterRequestLine(r)
            && |RenderHead(r)| == start + |RenderHeaders(r.headers)| + 2
    ensures AfterRequestLine(r) == RenderHeaders(r.headers) + "\r" + "\n" + r.body
  {
    hide RenderHeaders;
  }

  /** Looking through text free of the characters finds what follows it. */
  lemma {:induction false} FindPast(before: string, c: char, after: string, i: nat, chars: string)
    requires i <= |before| && Free(before[i..], chars) && c in chars
    ensures Find(before + [c] + after, i, chars) == Some(|before|)
    decreases |before| - i
  {
    var data := before + [c] + after;
    if i == |before| {
      assert data[i] == c;
    } else {
      assert data[i] == before[i] && before[i] in before[i..];
      assert Free(before[i + 1..], chars);
      FindPast(before, c, after, i + 1, chars);
    }
  }

  lemma {:induction false} FreeAt(s: string, chars: string)
    requires Free(s, chars)
    ensures forall k | 0 <= k < |s| :: s[k] !in chars
  {
    assert forall k | 0 <= k < |s| :: s[k] in s;
  }

  lemma {:induction false} LineParts(data: string, verb: string, uri: string, version: string, rest: string)
    requires data == verb + " " + uri + " " + version + "\r" + "\n" + rest
    ensures var (p, q, n) := (|verb|, |verb| + 1 + |uri|, |verb| + |uri| + |version| + 3);
            && n < |data| && data[p] == ' ' && data[q] == ' ' && data[n] == '\n'
            && data[0..p] == verb && data[p + 1..q] == uri && data[q + 1..n] == version + "\r"
  {
    var p, q := |verb|, |verb| + 1 + |uri|;
    var tail := version + "\r" + "\n" + rest;
    assert data == verb + " " + uri + " " + tail;
    assert data[q + 1..] == tail;
  }

  lemma {:induction false} SlicesSplit(data: string, verb: string, uri: string, version: string)
    requires Free(verb, " \t\n") && |verb| <= 8 && Free(uri, " \t\n") && |uri| <= 128
    requires Free(version, "\n") && |version| <= 16
    requires |verb| + |uri| + |version| + 2 < |data|
    requires var (p, q, n) := (|verb|, |verb| + 1 + |uri|, |verb| + |uri| + |version| + 2);
             && data[p] == ' ' && data[q] == ' ' && data[n] == '\n'
             && data[0..p] == verb && data[p + 1..q] == uri && data[q + 1..n] == version
    ensures Splits(data, 0, |verb|, |verb| + 1 + |uri|, |verb| + |uri| + |version| + 2)
  {
    var p, q, n := |verb|, |verb| + 1 + |uri|, |verb| + |uri| + |version| + 2;
    FreeAt(verb, " \t\n");
    FreeAt(uri, " \t\n");
    FreeAt(version, "\n");
    hide Free;
    assert forall k | 0 <= k < p :: data[k] == verb[k];
    assert forall k | p + 1 <= k < q :: data[k] == uri[k - p - 1];
    assert forall k | q + 1 <= k < n :: data[k] == version[k - q - 1];
  }

  /** Where the parts of the first line are. */
  lemma {:induction false} LineSplits(data: string, verb: string, uri: string, version: string, rest: string)
    requires Free(verb, " \t\n") && |verb| <= 8 && Free(uri, " \t\n") && |uri| <= 128
    requires Free(version, "\n") && |version| + 1 <= 16
    requires data == verb + " " + uri + " " + version + "\r" + "\n" + rest
    ensures var (p, q, n) := (|verb|, |verb| + 1 + |uri|, |verb| + |uri| + |version| + 3);
            && Splits(data, 0, p, q, n)
            && data[0..p] == verb && data[p + 1..q] == uri && data[q + 1..n] == version + "\r"
  {
    LineParts(data, verb, uri, version, rest);
    SlicesSplit(data, verb, uri, version + "\r");
  }

  lemma {:induction false} PartsAre(data: string, verb: string, uri: string, version: string)
    requires |verb| + |uri| + |version| + 2 < |data|
    requires var (p, q, n) := (|verb|, |verb| + 1 + |uri|, |verb| + |uri| + |version| + 2);
             data[0..p] == verb && data[p + 1..q] == uri && data[q + 1..n] == version
    ensures Parts(data, 0, |verb|, |verb| + 1 + |uri|, |verb| + |uri| + |version| + 2, NO_FIELDS)
         == Fields(Some(verb), Some(uri), Some(version), None, None, None)
  {
  }

  lemma {:induction false} RequestLineOf(data: string, verb: string, uri: string, version: string, rest: string)
    requires Free(verb, " \t\n") && |verb| <= 8 && Free(uri, " \t\n") && |uri| <= 128
    requires Free(version, "\n") && |version| + 1 <= 16
    requires data == verb + " " + uri + " " + version + "\r" + "\n" + rest
    ensures ParseRequestLine(data, 0, NO_FIELDS) ==
            ParseHead(data, |verb| + |uri| + |version| + 4,
                      Fields(Some(verb), Some(uri), Some(version + "\r"), None, None, None))
  {
    hide *;
    LineParts(data, verb, uri, version, rest);
    LineSplits(data, verb, uri, version, rest);
    PartsAre(data, verb, uri, version + "\r");
    SplitGivesHead(data, 0, |verb|, |verb| + 1 + |uri|, |verb| + |uri| + |version| + 3, NO_FIELDS);
  }

  lemma {:induction false} RequestLineRoundTrip(verb: string, uri: string, version: string, rest: string)
    requires Free(verb, " \t\n") && |verb| <= 8 && Free(uri, " \t\n") && |uri| <= 128
    requires Free(version, "\n") && |version| + 1 <= 16
    ensures var data := verb + " " + uri + " " + version + "\r" + "\n" + rest;
            ParseRequestLine(data, 0, NO_FIELDS) ==
            ParseHead(data, |verb| + |uri| + |version| + 4,
                      Fields(Some(verb), Some(uri), Some(version + "\r"), None, None, None))
  {
    hide *;
    RequestLineOf(verb + " " + uri + " " + version + "\r" + "\n" + rest, verb, uri, version, rest);
  }

  function HeaderLines(hs: seq<Header>): seq<string> {
    if hs == [] then [] else [RenderHeader(hs[0])] + HeaderLines(hs[1..])
  }

  lemma {:induction false} HeaderIsOneLine(h: Header)
    requires HeaderOk(h)
    ensures Free(RenderHeader(h), "\n")
  {
  }

  lemma {:induction false} OneLine(line: string, rest: string)
    requires Free(line, "\n")
    ensures Lines(line + "\n" + rest) == [line] + Lines(rest)
  {
    FindPast(line, '\n', rest, 0, "\n");
    var data := line + "\n" + rest;
    assert line[0..] == line && data == line + ['\n'] + rest;
    assert data[..|line|] == line && data[|line| + 1..] == rest;
  }

  lemma {:induction false} RenderedLines(hs: seq<Header>, body: string)
    requires forall i | 0 <= i < |hs| :: HeaderOk(hs[i])
    ensures Lines(RenderHeaders(hs) + "\r" + "\n" + body) == HeaderLines(hs) + ["\r"] + Lines(body)
    decreases |hs|
  {
    hide Find, Lines, HeaderOk, RenderHeader;
    if hs == [] {
      OneLine("\r", body);
      assert RenderHeaders(hs) + "\r" + "\n" + body == "\r" + "\n" + body;
      assert HeaderLines(hs) + ["\r"] + Lines(body) == ["\r"] + Lines(body);
    } else {
      var line, rest := RenderHeader(hs[0]), RenderHeaders(hs[1..]) + "\r" + "\n" + body;
      HeaderIsOneLine(hs[0]);
      OneLine(line, rest);
      RenderedLines(hs[1..], body);
      assert RenderHeaders(hs) + "\r" + "\n" + body == line + "\n" + rest;
      var more := HeaderLines(hs[1..]) + ["\r"] + Lines(body);
      assert HeaderLines(hs) + ["\r"] + Lines(body) == [line] + more;
    }
  }

  lemma {:induction false} OnlyColon(c: char)
    ensures (SameLetter(c, ':') || SameLetter(':', c)) ==> c == ':'
  {
    LowerIsCaseless(c, ':');
    LowerIsCaseless(':', c);
  }

  lemma {:induction false} NameDecides(h: Header, name: string)
    requires Free(h.name, ":\n") && Free(name, ":")
    ensures Starts(RenderHeader(h), name + ":") <==> SameText(h.name, name)
    ensures SameText(h.name, name) ==>
              |RenderHeader(h)| == |name| + 3 + |h.value| && RenderHeader(h)[|name| + 2..] == h.value + "\r"
  {
    var line, lit := RenderHeader(h), name + ":";
    var n := |h.name|;
    assert forall k | 0 <= k < n :: line[k] == h.name[k];
    assert line[n] == ':';
    if n < |name| {
      assert name[n] in name && line[n] == ':' && lit[n] == name[n];
      OnlyColon(name[n]);
    } else if n > |name| {
      assert line[|name|] in h.name && lit[|name|] == ':';
      OnlyColon(line[|name|]);
    } else {
      assert forall k | 0 <= k < n :: lit[k] == name[k];
      assert line[n] == lit[n];
      assert SameText(h.name, name) ==> forall k | 0 <= k < |lit| :: SameLetter(line[k], lit[k]);
      hide SameLetter;
    }
  }

  /** A rendered header is recognised exactly by its name, and its copy fits. */
  lemma {:induction false} HeaderFits(h: Header)
    requires HeaderOk(h)
    ensures CopyFits(RenderHeader(h)) && |RenderHeader(h)| >= 3
  {
    NameDecides(h, "host");
    NameDecides(h, "accept");
    NameDecides(h, "connection");
    assert "host" + ":" == "host:" && "accept" + ":" == "accept:" && "connection" + ":" == "connection:";
  }

  lemma {:induction false} LinesFit(hs: seq<Header>)
    requires forall i | 0 <= i < |hs| :: HeaderOk(hs[i])
    ensures |HeaderLines(hs)| == |hs|
    ensures forall i | 0 <= i < |hs| :: HeaderLines(hs)[i] == RenderHeader(hs[i])
    ensures forall i | 0 <= i < |hs| :: CopyFits(HeaderLines(hs)[i]) && |HeaderLines(hs)[i]| >= 3
  {
    hide CopyFits, RenderHeader, HeaderOk;
    if hs == [] {
    } else {
      HeaderFits(hs[0]);
      LinesFit(hs[1..]);
    }
  }

  lemma {:induction false} HeaderLinesEnd(hs: seq<Header>, more: seq<string>)
    requires forall i | 0 <= i < |hs| :: HeaderOk(hs[i])
    ensures EndOfHead(HeaderLines(hs) + ["\r"] + more) == Some(|hs|)
    ensures Span(HeaderLines(hs) + ["\r"]) == |RenderHeaders(hs)| + 2
  {
    hide HeaderOk, RenderHeader;
    var lines := HeaderLines(hs) + ["\r"];
    if hs == [] {
      assert lines == ["\r"] && lines[1..] == [] && (lines + more)[0] == "\r";
    } else {
      HeaderLinesEnd(hs[1..], more);
      LinesFit(hs);
      assert lines[0] == RenderHeader(hs[0]) && lines[1..] == HeaderLines(hs[1..]) + ["\r"];
      assert (lines + more)[0] == lines[0] && (lines + more)[1..] == HeaderLines(hs[1..]) + ["\r"] + more;
    }
  }

  lemma {:induction false} LastIsLast(hs: seq<Header>, name: string)
    requires (forall i | 0 <= i < |hs| :: HeaderOk(hs[i])) && Free(name, ":")
    ensures LastValue(HeaderLines(hs), name + ":", |name| + 2, None) == LastHeader(hs, name)
    decreases |hs|
  {
    hide HeaderLines, CopyFits, RenderHeader, Starts;
    LinesFit(hs);
    if hs != [] {
      var front, h := hs[..|hs| - 1], hs[|hs| - 1];
      LinesFit(front);
      assert HeaderLines(hs)[..|hs| - 1] == HeaderLines(front);
      NameDecides(h, name);
      LastIsLast(front, name);
    }
  }

  lemma {:induction false} RenderedOutcome(hs: seq<Header>, more: seq<string>, start: nat, f: Fields)
    requires forall i | 0 <= i < |hs| :: HeaderOk(hs[i])
    requires f.host == f.accept == f.conn == None
    ensures HeadOutcome(HeaderLines(hs) + ["\r"] + more, start, f)
         == Parsed(start + |RenderHeaders(hs)| + 2,
                   f.(host := LastHeader(hs, "host"), accept := LastHeader(hs, "accept"),
                      conn := LastHeader(hs, "connection")))
  {
    hide HeaderLines, RenderHeaders, LastHeader, HeaderOk, Span, EndOfHead, LastValue, CopyFits;
    var k := |hs|;
    LinesFit(hs);
    HeaderLinesEnd(hs, more);
    var lines := HeaderLines(hs) + ["\r"] + more;
    assert lines[..k] == HeaderLines(hs) && lines[..k + 1] == HeaderLines(hs) + ["\r"];
    LastIsLast(hs, "host");
    LastIsLast(hs, "accept");
    LastIsLast(hs, "connection");
    assert "host" + ":" == "host:" && "accept" + ":" == "accept:" && "connection" + ":" == "connection:";
  }

  lemma {:induction false} HeadersRoundTrip(hs: seq<Header>, body: string, start: nat, f: Fields)
    requires forall i | 0 <= i < |hs| :: HeaderOk(hs[i])
    requires f.host == f.accept == f.conn == None
    ensures HeadOutcome(Lines(RenderHeaders(hs) + "\r" + "\n" + body), start, f)
         == Parsed(start + |RenderHeaders(hs)| + 2,
                   f.(host := LastHeader(hs, "host"), accept := LastHeader(hs, "accept"),
                      conn := LastHeader(hs, "connection")))
  {
    RenderedLines(hs, body);
    RenderedOutcome(hs, Lines(body), start, f);
  }

  /** Rendering a well-formed request and parsing it gives everything back, with the cursor on the
      first byte of the body. */
  lemma {:induction false} RoundTrip(r: Request)
    requires WellFormed(r)
    ensures ParseRequestLine(Render(r), 0, NO_FIELDS)
         == Parsed(|RenderHead(r)|,
                   Fields(Some(r.verb), Some(r.uri), Some(r.version + "\r"), LastHeader(r.headers, "host"),
                          LastHeader(r.headers, "accept"), LastHeader(r.headers, "connection")))
  {
    hide Find, ParseHead, ParseRequestLine, ParseUri, ParseVersion, Lines, HeadOutcome, LastHeader, Free, HeaderOk;
    hide Render, RenderHead, RenderHeaders, AfterRequestLine;
    RenderParts(r);
    RequestLineRoundTrip(r.verb, r.uri, r.version, AfterRequestLine(r));
    var start := |r.verb| + |r.uri| + |r.version| + 4;
    var f := Fields(Some(r.verb), Some(r.uri), Some(r.version + "\r"), None, None, None);
    HeadRefinesLines(Render(r), start, f);
    HeadersRoundTrip(r.headers, r.body, start, f);
  }

  lemma {:induction false} LastOfName(hs: seq<Header>, i: nat, name: string)
    requires i < |hs| && SameText(hs[i].name, name) && forall k | i < k < |hs| :: !SameText(hs[k].name, name)
    ensures LastHeader(hs, name) == Some(hs[i].value + "\r")
    decreases |hs|
  {
    if i == |hs| - 1 {
    } else {
      var front := hs[..|hs| - 1];
      assert forall k | i < k < |front| :: front[k] == hs[k];
      LastOfName(front, i, name);
    }
  }

  lemma {:induction false} NamesInSmall(s: string, name: string, small: string)
    requires (name == "Host" && small == "host") || (name == "Accept" && small == "accept")
             || (name == "Connection" && small == "connection")
    ensures SameText(s, name) <==> SameText(s, small)
  {
    forall k | 0 <= k < |s| && k < |name| ensures SameLetter(s[k], name[k]) <==> SameLetter(s[k], small[k]) {
      LowerIsCaseless(s[k], name[k]);
      LowerIsCaseless(s[k], small[k]);
    }
    hide SameLetter;
  }

  /** In whatever mixture of capitals and small letters a header is called Host, Accept or Connection, the
      value of the last one of that name is recovered. */
  lemma {:induction false} AnyCaseRecovered(r: Request, i: nat, name: string)
    requires WellFormed(r) && i < |r.headers| && name in ["Host", "Accept", "Connection"]
    requires SameText(r.headers[i].name, name)
    requires forall k | i < k < |r.headers| :: !SameText(r.headers[k].name, name)
    ensures ParseRequestLine(Render(r), 0, NO_FIELDS).Parsed?
    ensures var f := ParseRequestLine(Render(r), 0, NO_FIELDS).fields;
            Some(r.headers[i].value + "\r")
            == if name == "Host" then f.host else if name == "Accept" then f.accept else f.conn
  {
    var small := if name == "Host" then "host" else if name == "Accept" then "accept" else "connection";
    forall k | 0 <= k < |r.headers| ensures SameText(r.headers[k].name, name) <==> SameText(r.headers[k].name, small) {
      NamesInSmall(r.headers[k].name, name, small);
    }
    LastOfName(r.headers, i, small);
    RoundTrip(r);
  }
}
