/** The bounded line splitter: its callbacks depend on the decoded text alone, not on how it was chunked. */
module LogStream {
  import opened LineBreaks

  const BOUND := 65536

  // Text.

  /** Bytes of a character in UTF-8. */
  function Width(c: char): nat {
    var u := c as int;
    if u < 0x80 then 1 else if u < 0x800 then 2 else if u < 0x1_0000 then 3 else 4
  }

  function ByteLength(s: string): nat {
    if s == "" then 0 else Width(s[0]) + ByteLength(s[1..])
  }

  lemma {:induction false} ByteLengthConcat(a: string, b: string)
    ensures ByteLength(a + b) == ByteLength(a) + ByteLength(b)
  {
    if a == "" {
      assert a + b == b;
    } else {
      assert (a + b)[1..] == a[1..] + b;
      ByteLengthConcat(a[1..], b);
    }
  }

  lemma NothingIsShort()
    ensures ByteLength("") == 0
  {
  }

  /** White space and line terminators, as trimming understands them. */
  predicate IsSpace(c: char) {
    var u := c as int;
    || 9 <= u <= 13 || u == 32 || u == 0xA0 || u == 0x1680 || 0x2000 <= u <= 0x200A
    || u == 0x2028 || u == 0x2029 || u == 0x202F || u == 0x205F || u == 0x3000 || u == 0xFEFF
  }

  function TrimStart(s: string): string {
    if s != "" && IsSpace(s[0]) then TrimStart(s[1..]) else s
  }

  function TrimEnd(s: string): string {
    if s != "" && IsSpace(s[|s| - 1]) then TrimEnd(s[..|s| - 1]) else s
  }

  function Trim(s: string): string { TrimEnd(TrimStart(s)) }

  // Lines.

  /** What follows the last newline. */
  function Tail(s: string): string {
    var i := Break(s, '\n');
    if i == |s| then s else Tail(s[i + 1..])
  }

  // Callbacks.

  datatype Callback = Line(text: string) | Lost

  /** A line with its newline: lost as a whole beyond the bound, otherwise delivered unless blank. */
  function LineCalls(line: string): seq<Callback> {
    if ByteLength(line) > BOUND then [Lost] else if Trim(line) != "" then [Line(Trim(line))] else []
  }

  /** Text after the last newline: reported as soon as it exceeds the bound. */
  function TailCalls(rest: string): seq<Callback> {
    if ByteLength(rest) > BOUND then [Lost] else []
  }

  function CompleteCalls(s: string): seq<Callback> {
    var i := Break(s, '\n');
    if i == |s| then [] else LineCalls(s[..i + 1]) + CompleteCalls(s[i + 1..])
  }

  /** All callbacks for a text, line by line. */
  function Calls(s: string): seq<Callback> {
    CompleteCalls(s) + TailCalls(Tail(s))
  }

  /** A piece of text in which only the last character may be a newline. */
  predicate Piece(p: string) {
    '\n' !in p[..|p| - (if p == "" then 0 else 1)]
  }

  predicate EndsLine(p: string) {
    p != "" && p[|p| - 1] == '\n'
  }

  lemma BreakOfConcat(s: string, p: string)
    requires Break(s, '\n') < |s|
    ensures Break(s + p, '\n') == Break(s, '\n')
  {
    var i := Break(s, '\n');
    assert (s + p)[..i] == s[..i];
    BreakUnique(s + p, '\n', i);
  }

  lemma BreakAtEnd(s: string, p: string)
    requires Break(s, '\n') == |s| && Piece(p) && EndsLine(p)
    ensures Break(s + p, '\n') == |s + p| - 1
  {
    assert s == s[..|s|];
    assert (s + p)[..|s + p| - 1] == s + p[..|p| - 1];
    BreakUnique(s + p, '\n', |s + p| - 1);
  }

  lemma NoBreakInConcat(s: string, p: string)
    requires Break(s, '\n') == |s| && Piece(p) && !EndsLine(p)
    ensures Break(s + p, '\n') == |s + p|
  {
  }

  lemma Unfold(s: string)
    ensures Break(s, '\n') < |s| ==>
              Tail(s) == Tail(s[Break(s, '\n') + 1..])
              && CompleteCalls(s) == LineCalls(s[..Break(s, '\n') + 1]) + CompleteCalls(s[Break(s, '\n') + 1..])
    ensures Break(s, '\n') == |s| ==> Tail(s) == s && CompleteCalls(s) == []
  {
    hide LineCalls, Break;
  }

  /** Appending a piece changes the last line only. */
  lemma {:induction false} AppendPiece(s: string, p: string)
    requires Piece(p)
    ensures Tail(s + p) == if EndsLine(p) then "" else Tail(s) + p
    ensures CompleteCalls(s + p) == CompleteCalls(s) + if EndsLine(p) then LineCalls(Tail(s) + p) else []
    decreases |s|
  {
    hide LineCalls, Piece, EndsLine, Break, Tail, CompleteCalls;
    var i := Break(s, '\n');
    var t := s + p;
    Unfold(s);
    Unfold(t);
    if i < |s| {
      BreakOfConcat(s, p);
      assert t[i + 1..] == s[i + 1..] + p && t[..i + 1] == s[..i + 1];
      AppendPiece(s[i + 1..], p);
    } else if EndsLine(p) {
      BreakAtEnd(s, p);
      LastLine(t);
    } else {
      NoBreakInConcat(s, p);
    }
  }

  lemma LastLine(t: string)
    requires t != "" && Break(t, '\n') == |t| - 1
    ensures Tail(t) == "" && CompleteCalls(t) == LineCalls(t)
  {
    assert t[..|t|] == t && t[|t|..] == "";
  }

  /** The pieces of a chunk, each ending at a newline or at the end; an empty chunk is one empty piece. */
  function Pieces(s: string): seq<string> {
    var i := Break(s, '\n');
    if i + 1 >= |s| then [s] else [s[..i + 1]] + Pieces(s[i + 1..])
  }

  function Concat(ps: seq<string>): string {
    if ps == [] then "" else Concat(ps[..|ps| - 1]) + ps[|ps| - 1]
  }

  lemma ConcatNothing(ps: seq<string>)
    ensures Concat(ps[..0]) == ""
  {
  }

  lemma ConcatNext(ps: seq<string>, i: nat)
    requires i < |ps|
    ensures Concat(ps[..i + 1]) == Concat(ps[..i]) + ps[i]
  {
    assert ps[..i + 1][..i] == ps[..i];
  }

  lemma {:induction false} ConcatHead(p: string, ps: seq<string>)
    ensures Concat([p] + ps) == p + Concat(ps)
  {
    if ps == [] {
      assert Concat([p]) == Concat([p][..0]) + p;
    } else {
      var n, all := |ps| - 1, [p] + ps;
      ConcatHead(p, ps[..n]);
      assert all[..n + 1] == [p] + ps[..n] && all[n + 1] == ps[n];
      assert Concat(all) == Concat([p] + ps[..n]) + ps[n];
    }
  }

  lemma BrokenPiece(s: string)
    ensures Break(s, '\n') + 1 >= |s| ==> Piece(s)
    ensures Break(s, '\n') < |s| ==> Piece(s[..Break(s, '\n') + 1])
  {
  }

  /** Splitting loses nothing. */
  lemma {:induction false} PiecesExact(s: string)
    ensures Concat(Pieces(s)) == s
  {
    hide Break, Concat;
    ConcatOne(s);
    var i := Break(s, '\n');
    if i + 1 < |s| {
      var first, rest := s[..i + 1], s[i + 1..];
      PiecesExact(rest);
      var ps := Pieces(rest);
      assert Pieces(s) == [first] + ps;
      hide Pieces;
      ConcatHead(first, ps);
      assert s == first + rest;
    }
  }

  lemma ConcatOne(s: string)
    ensures Concat([s]) == s
  {
  }

  /** A newline can only end a piece. */
  lemma {:induction false} PiecesArePieces(s: string)
    ensures forall i | 0 <= i < |Pieces(s)| :: Piece(Pieces(s)[i])
  {
    hide Break, Piece;
    BrokenPiece(s);
    if Break(s, '\n') + 1 < |s| {
      PiecesArePieces(s[Break(s, '\n') + 1..]);
    }
  }

  // What the callbacks mean.

  lemma TooLongStays(t: string, p: string)
    ensures ByteLength(t) <= ByteLength(t + p)
  {
    ByteLengthConcat(t, p);
  }

  lemma GrowByPiece(s: string, p: string)
    requires Piece(p)
    ensures Calls(s) <= Calls(s + p)
  {
    hide Tail, CompleteCalls, ByteLength, Trim;
    AppendPiece(s, p);
    TooLongStays(Tail(s), p);
  }

  /** A callback once made is never taken back: the callbacks of a text begin those of every longer text. */
  lemma {:induction false} CallsOnlyGrow(s: string, b: string)
    ensures Calls(s) <= Calls(s + b)
  {
    hide Calls, Pieces, Piece, Concat;
    var ps := Pieces(b);
    PiecesExact(b);
    PiecesArePieces(b);
    assert s + Concat(ps[..0]) == s by {
      ConcatNothing(ps);
    }
    for i := 0 to |ps|
      invariant Calls(s) <= Calls(s + Concat(ps[..i]))
    {
      ConcatNext(ps, i);
      GrowByPiece(s + Concat(ps[..i]), ps[i]);
      assert s + Concat(ps[..i]) + ps[i] == s + (Concat(ps[..i]) + ps[i]);
    }
    assert ps[..|ps|] == ps;
  }

  lemma {:induction false} TrimStartFacts(s: string)
    ensures ByteLength(TrimStart(s)) <= ByteLength(s) && |TrimStart(s)| <= |s|
    ensures TrimStart(s) == s[|s| - |TrimStart(s)|..]
  {
    if s != "" && IsSpace(s[0]) {
      TrimStartFacts(s[1..]);
    }
  }

  lemma {:induction false} TrimEndFacts(s: string)
    ensures ByteLength(TrimEnd(s)) <= ByteLength(s) && TrimEnd(s) <= s
    ensures s != "" && IsSpace(s[|s| - 1]) ==> TrimEnd(s) <= s[..|s| - 1]
  {
    if s != "" && IsSpace(s[|s| - 1]) {
      var front := s[..|s| - 1];
      TrimEndFacts(front);
      assert s == front + [s[|s| - 1]];
      ByteLengthConcat(front, [s[|s| - 1]]);
    }
  }

  /** A delivered line is within the bound and holds no newline. */
  ghost predicate GoodLine(c: Callback) {
    c.Line? ==> c.text != "" && ByteLength(c.text) <= BOUND && '\n' !in c.text
  }

  lemma LineIsGood(line: string)
    requires EndsLine(line) && Piece(line)
    ensures forall c | c in LineCalls(line) :: GoodLine(c)
  {
    var t := TrimStart(line);
    TrimStartFacts(line);
    TrimEndFacts(t);
    hide ByteLength, TrimStart, TrimEnd;
    if t != "" {
      assert t[|t| - 1] == '\n';
      assert t[..|t| - 1] == line[..|line| - 1][|line| - |t|..];
    }
  }

  /** Every line that reaches the consumer is one bounded line of the text. */
  lemma {:induction false} DeliveredLinesAreGood(s: string)
    ensures forall c | c in Calls(s) :: GoodLine(c)
    decreases |s|
  {
    var i := Break(s, '\n');
    if i < |s| {
      assert s[..i + 1][..i] == s[..i];
      LineIsGood(s[..i + 1]);
      hide LineCalls, GoodLine, TailCalls;
      DeliveredLinesAreGood(s[i + 1..]);
      assert Calls(s) == LineCalls(s[..i + 1]) + Calls(s[i + 1..]);
    }
  }

  // What the callbacks tell, from the text alone.

  predicate AllSpace(s: string) {
    forall i | 0 <= i < |s| :: IsSpace(s[i])
  }

  /** `t` is what remains of `s` between its outer white space. */
  ghost predicate IsTrimmed(s: string, t: string) {
    && t != "" && !IsSpace(t[0]) && !IsSpace(t[|t| - 1])
    && exists a, b :: s == a + t + b && AllSpace(a) && AllSpace(b)
  }

  lemma {:induction false} TrimStartCuts(s: string)
    ensures |TrimStart(s)| <= |s| && s[|s| - |TrimStart(s)|..] == TrimStart(s) && AllSpace(s[..|s| - |TrimStart(s)|])
    ensures TrimStart(s) != "" ==> !IsSpace(TrimStart(s)[0])
  {
    if s != "" && IsSpace(s[0]) {
      TrimStartCuts(s[1..]);
      assert s[..|s| - |TrimStart(s)|] == [s[0]] + s[1..][..|s| - 1 - |TrimStart(s)|];
    }
  }

  lemma {:induction false} TrimEndCuts(s: string)
    ensures |TrimEnd(s)| <= |s| && s[..|TrimEnd(s)|] == TrimEnd(s) && AllSpace(s[|TrimEnd(s)|..])
    ensures TrimEnd(s) != "" ==> !IsSpace(TrimEnd(s)[|TrimEnd(s)| - 1])
  {
    if s != "" && IsSpace(s[|s| - 1]) {
      var front := s[..|s| - 1];
      TrimEndCuts(front);
      assert s[|TrimEnd(s)|..] == front[|TrimEnd(s)|..] + [s[|s| - 1]];
    }
  }

  lemma SpaceAround(a: string, t: string, b: string)
    requires AllSpace(a) && AllSpace(b)
    ensures AllSpace(a + t + b) <==> AllSpace(t)
  {
    var s := a + t + b;
    assert forall i | 0 <= i < |t| :: s[|a| + i] == t[i];
  }

  /** Trimming leaves nothing of a blank text, and otherwise cuts exactly the outer white space. */
  lemma TrimExact(s: string)
    ensures if AllSpace(s) then Trim(s) == "" else IsTrimmed(s, Trim(s))
  {
    hide IsSpace, TrimStart, TrimEnd;
    var u := TrimStart(s);
    TrimStartCuts(s);
    TrimEndCuts(u);
    var t := TrimEnd(u);
    var a, b := s[..|s| - |u|], u[|t|..];
    assert s == a + t + b;
    SpaceAround(a, t, b);
  }

  /** A line with its newline at the end and none before. */
  predicate Terminated(line: string) {
    line != "" && line[|line| - 1] == '\n' && '\n' !in line[..|line| - 1]
  }

  function Flat<T>(parts: seq<seq<T>>): seq<T> {
    if parts == [] then [] else parts[0] + Flat(parts[1..])
  }

  /** The text is these terminated lines followed by an unterminated rest. */
  ghost predicate IsSplit(text: string, lines: seq<string>, rest: string) {
    text == Flat(lines) + rest && '\n' !in rest && forall i | 0 <= i < |lines| :: Terminated(lines[i])
  }

  /** What one line is told by: lost beyond 65536 bytes, nothing when blank, otherwise its text once. */
  ghost predicate LineTold(line: string, told: seq<Callback>) {
    if ByteLength(line) > 65536 then told == [Lost]
    else if AllSpace(line) then told == []
    else |told| == 1 && told[0].Line? && IsTrimmed(line, told[0].text)
  }

  /** What the beginning of a line is told by while its newline has not come: it is lost as soon as it is too long. */
  ghost predicate RestTold(rest: string, told: seq<Callback>) {
    told == if ByteLength(rest) > 65536 then [Lost] else []
  }

  /** The callbacks are, in order, what each line is told by and what the rest is told by. */
  ghost predicate InOrder(calls: seq<Callback>, lines: seq<string>, rest: string, parts: seq<seq<Callback>>) {
    && |parts| == |lines| + 1 && calls == Flat(parts)
    && (forall i | 0 <= i < |lines| :: LineTold(lines[i], parts[i]))
    && RestTold(rest, parts[|lines|])
  }

  ghost predicate Tells(calls: seq<Callback>, text: string) {
    forall lines, rest | IsSplit(text, lines, rest) :: exists parts :: InOrder(calls, lines, rest, parts)
  }

  lemma LineCallsTell(line: string)
    ensures LineTold(line, LineCalls(line))
  {
    TrimExact(line);
    hide Trim, AllSpace, ByteLength, IsSpace;
  }

  lemma FlatHead<T>(part: seq<T>, parts: seq<seq<T>>)
    ensures Flat([part] + parts) == part + Flat(parts)
  {
    assert ([part] + parts)[1..] == parts;
  }

  lemma UnfoldLine(line: string, rest: string)
    requires Terminated(line)
    ensures Calls(line + rest) == LineCalls(line) + Calls(rest)
  {
    hide LineCalls, TailCalls;
    var s, n := line + rest, |line| - 1;
    assert s[..n] == line[..n] && s[..n + 1] == line && s[n + 1..] == rest;
    BreakUnique(s, '\n', n);
    Unfold(s);
  }

  lemma NoLines(rest: string)
    requires '\n' !in rest
    ensures Calls(rest) == TailCalls(rest) && Tail(rest) == rest
  {
    NoBreak(rest, '\n');
    Unfold(rest);
    hide LineCalls, TailCalls;
  }

  lemma FirstInOrder(calls: seq<Callback>, lines: seq<string>, rest: string, parts: seq<seq<Callback>>, first: seq<Callback>)
    requires lines != [] && LineTold(lines[0], first) && InOrder(calls, lines[1..], rest, parts)
    ensures InOrder(first + calls, lines, rest, [first] + parts)
  {
    hide LineTold, RestTold, Flat;
    FlatHead(first, parts);
    assert ([first] + parts)[|lines|] == parts[|lines| - 1];
    assert forall i | 0 < i < |lines| :: lines[i] == lines[1..][i - 1];
  }

  lemma RestInOrder(rest: string)
    requires '\n' !in rest
    ensures InOrder(Calls(Flat<char>([]) + rest), [], rest, [TailCalls(rest)])
  {
    NoLines(rest);
    hide Calls, Tail;
    assert Flat<char>([]) + rest == rest;
    var told := TailCalls(rest);
    FlatHead(told, []);
    assert [told] + [] == [told] && told + Flat<Callback>([]) == told;
  }

  lemma {:induction false} CallsInOrder(lines: seq<string>, rest: string) returns (parts: seq<seq<Callback>>)
    requires '\n' !in rest && forall i | 0 <= i < |lines| :: Terminated(lines[i])
    ensures InOrder(Calls(Flat(lines) + rest), lines, rest, parts)
  {
    if lines == [] {
      NoLines(rest);
      parts := [TailCalls(rest)];
      RestInOrder(rest);
    } else {
      var line, more := lines[0], lines[1..];
      parts := CallsInOrder(more, rest);
      assert Flat(lines) + rest == line + (Flat(more) + rest);
      hide Calls, Flat, Terminated, InOrder, LineTold;
      UnfoldLine(line, Flat(more) + rest);
      LineCallsTell(line);
      FirstInOrder(Calls(Flat(more) + rest), lines, rest, parts, LineCalls(line));
      parts := [LineCalls(line)] + parts;
    }
  }

  /** For every text the callbacks tell each of its lines, in order, and an overlong rest. */
  lemma CallsTell(text: string)
    ensures Tells(Calls(text), text)
  {
    hide Calls;
    forall lines, rest | IsSplit(text, lines, rest)
      ensures exists parts :: InOrder(Calls(text), lines, rest, parts)
    {
      var parts := CallsInOrder(lines, rest);
    }
  }

  lemma LineAndRest(line: string, s: string, lines: seq<string>, rest: string)
    requires Terminated(line) && IsSplit(s, lines, rest)
    ensures IsSplit(line + s, [line] + lines, rest)
  {
    FlatHead(line, lines);
    hide Flat, Terminated;
  }

  lemma UnbrokenSplit(text: string)
    requires Break(text, '\n') == |text|
    ensures IsSplit(text, [], text) && Tail(text) == text
  {
    hide Break;
    assert text[..|text|] == text;
    assert Flat<char>([]) + text == text;
  }

  lemma FirstLine(text: string, i: nat)
    requires i < |text| && text[i] == '\n' && '\n' !in text[..i]
    ensures Terminated(text[..i + 1]) && text == text[..i + 1] + text[i + 1..]
  {
    var line := text[..i + 1];
    assert line[..i] == text[..i];
  }

  /** Every text has such a split into lines and rest. */
  lemma {:induction false} SplitExists(text: string) returns (lines: seq<string>, rest: string)
    ensures IsSplit(text, lines, rest) && rest == Tail(text)
  {
    hide Tail, IsSplit, Terminated, Break;
    var i := Break(text, '\n');
    if i == |text| {
      UnbrokenSplit(text);
      lines, rest := [], text;
    } else {
      FirstLine(text, i);
      Unfold(text);
      lines, rest := SplitExists(text[i + 1..]);
      LineAndRest(text[..i + 1], text[i + 1..], lines, rest);
      lines := [text[..i + 1]] + lines;
    }
  }

  lemma {:induction false} RestIsTail(lines: seq<string>, rest: string)
    requires '\n' !in rest && forall i | 0 <= i < |lines| :: Terminated(lines[i])
    ensures Tail(Flat(lines) + rest) == rest
  {
    if lines == [] {
      assert Flat(lines) + rest == rest;
      NoLines(rest);
    } else {
      var line, s := lines[0], Flat(lines[1..]) + rest;
      RestIsTail(lines[1..], rest);
      assert Flat(lines) + rest == line + s;
      hide Flat, Tail;
      var t, n := line + s, |line| - 1;
      assert t[..n] == line[..n] && t[n + 1..] == s;
      BreakUnique(t, '\n', n);
      Unfold(t);
    }
  }

  // The texts and the losses alone.

  function Texts(calls: seq<Callback>): seq<string> {
    if calls == [] then [] else (if calls[0].Line? then [calls[0].text] else []) + Texts(calls[1..])
  }

  function Losses(calls: seq<Callback>): nat {
    if calls == [] then 0 else (if calls[0].Lost? then 1 else 0) + Losses(calls[1..])
  }

  /** The lines that are delivered: within 65536 bytes with their newline, and not blank. */
  function Deliverable(lines: seq<string>): seq<string> {
    if lines == [] then []
    else (if ByteLength(lines[0]) <= 65536 && !AllSpace(lines[0]) then [lines[0]] else []) + Deliverable(lines[1..])
  }

  function Overlong(lines: seq<string>): nat {
    if lines == [] then 0 else (if ByteLength(lines[0]) > 65536 then 1 else 0) + Overlong(lines[1..])
  }

  lemma TextsFirst(c: Callback, calls: seq<Callback>)
    ensures Texts([c] + calls) == (if c.Line? then [c.text] else []) + Texts(calls)
    ensures Losses([c] + calls) == (if c.Lost? then 1 else 0) + Losses(calls)
  {
    assert ([c] + calls)[1..] == calls;
  }

  lemma Associates<T>(a: seq<T>, b: seq<T>, c: seq<T>)
    ensures (a + b) + c == a + (b + c)
  {
  }

  lemma {:induction false} TextsConcat(a: seq<Callback>, b: seq<Callback>)
    ensures Texts(a + b) == Texts(a) + Texts(b) && Losses(a + b) == Losses(a) + Losses(b)
  {
    if a == [] {
      assert a + b == b;
    } else {
      hide Texts, Losses;
      var c, more := a[0], a[1..];
      assert a == [c] + more;
      Associates([c], more, b);
      TextsConcat(more, b);
      TextsFirst(c, more);
      TextsFirst(c, more + b);
      Associates(if c.Line? then [c.text] else [], Texts(more), Texts(b));
    }
  }

  ghost predicate AreTrimmed(lines: seq<string>, texts: seq<string>) {
    |texts| == |lines| && forall i | 0 <= i < |lines| :: IsTrimmed(lines[i], texts[i])
  }

  lemma FirstTrimmed(line: string, lines: seq<string>, text: string, texts: seq<string>)
    requires IsTrimmed(line, text) && AreTrimmed(lines, texts)
    ensures AreTrimmed([line] + lines, [text] + texts)
  {
    hide IsTrimmed;
  }

  lemma OneTold(line: string, told: seq<Callback>)
    requires LineTold(line, told)
    ensures Losses(told) == if ByteLength(line) > 65536 then 1 else 0
    ensures ByteLength(line) > 65536 || AllSpace(line) ==> Texts(told) == []
    ensures ByteLength(line) <= 65536 && !AllSpace(line) ==> Texts(told) == [told[0].text] && IsTrimmed(line, told[0].text)
  {
    hide ByteLength, AllSpace, IsTrimmed;
    if told != [] {
      assert told[1..] == [];
    }
  }

  /** The delivered texts are, in order, the trimmed contents of exactly the lines that are short enough and not blank; one loss
      stands for each line that is too long, and one for a rest that is. */
  lemma {:induction false} TextsAndLosses(calls: seq<Callback>, lines: seq<string>, rest: string, parts: seq<seq<Callback>>)
    requires InOrder(calls, lines, rest, parts)
    ensures AreTrimmed(Deliverable(lines), Texts(calls))
    ensures Losses(calls) == Overlong(lines) + if ByteLength(rest) > 65536 then 1 else 0
    decreases |lines|
  {
    if lines == [] {
      FlatHead(parts[0], []);
      assert parts == [parts[0]] + [];
      assert calls == parts[0];
      hide ByteLength;
    } else {
      var line, first, more := lines[0], parts[0], Flat(parts[1..]);
      assert InOrder(more, lines[1..], rest, parts[1..]);
      TextsAndLosses(more, lines[1..], rest, parts[1..]);
      TextsConcat(first, more);
      OneTold(line, first);
      hide ByteLength, AllSpace, IsTrimmed, Texts, AreTrimmed;
      if ByteLength(line) <= 65536 && !AllSpace(line) {
        FirstTrimmed(line, Deliverable(lines[1..]), first[0].text, Texts(more));
      } else {
        assert [] + Deliverable(lines[1..]) == Deliverable(lines[1..]) && [] + Texts(more) == Texts(more);
      }
    }
  }

  // The stream.

  class BoundedLogStream {
    var buffer: string
    var bytes: nat
    var discard: bool
    /** The callbacks made so far. */
    var calls: seq<Callback>
    /** The decoded text received so far. */
    ghost var text: string

    ghost predicate Valid()
      reads this
    {
      && calls == Calls(text)
      && (discard <==> ByteLength(Tail(text)) > BOUND)
      && (!discard ==> buffer == Tail(text) && bytes == ByteLength(buffer))
      && (discard ==> buffer == "")
    }

    constructor ()
      ensures Valid() && text == "" && calls == []
    {
      buffer, bytes, discard, calls, text := "", 0, false, [], "";
    }

    method Feed(part: string)
      requires Valid() && Piece(part)
      modifies this
      ensures Valid() && text == old(text) + part
    {
      hide Tail, CompleteCalls, Trim, ByteLength, Piece;
      AppendPiece(text, part);
      ByteLengthConcat(Tail(text), part);
      NothingIsShort();
      if !discard {
        bytes := bytes + ByteLength(part);
        if bytes > BOUND {
          discard, buffer, calls := true, "", calls + [Lost];
        } else {
          buffer := buffer + part;
        }
      }
      if EndsLine(part) {
        if !discard && Trim(buffer) != "" {
          calls := calls + [Line(Trim(buffer))];
        }
        buffer, bytes, discard := "", 0, false;
      }
      text := text + part;
    }

    /** Whatever the chunk, the callbacks so far are those of the whole text so far, and at most one bounded line is kept. */
    method Push(chunk: string)
      requires Valid()
      modifies this
      ensures Valid() && text == old(text) + chunk
      ensures calls == Calls(text) && Tells(calls, text) && ByteLength(buffer) <= 65536
    {
      hide Pieces, Piece, Concat;
      var parts := Pieces(chunk);
      PiecesExact(chunk);
      PiecesArePieces(chunk);
      assert text == text + Concat(parts[..0]) by {
        ConcatNothing(parts);
      }
      for i := 0 to |parts|
        invariant Valid() && text == old(text) + Concat(parts[..i])
      {
        ConcatNext(parts, i);
        Feed(parts[i]);
        assert old(text) + Concat(parts[..i]) + parts[i] == old(text) + (Concat(parts[..i]) + parts[i]);
      }
      assert parts[..|parts|] == parts;
      CallsTell(text);
    }

    /** Ending the stream delivers the rest, as a line, unless it is too long or blank. */
    method End()
      requires Valid()
      modifies this`calls
      ensures forall lines, rest | IsSplit(text, lines, rest) ::
                if ByteLength(rest) > 65536 || AllSpace(rest) then calls == old(calls)
                else |calls| == |old(calls)| + 1 && calls[..|old(calls)|] == old(calls)
                     && calls[|old(calls)|].Line? && IsTrimmed(rest, calls[|old(calls)|].text)
    {
      TrimExact(Tail(text));
      forall lines, rest | IsSplit(text, lines, rest)
        ensures rest == Tail(text)
      {
        RestIsTail(lines, rest);
      }
      hide IsSplit, IsTrimmed, AllSpace, Tail, Trim, ByteLength, Calls;
      if !discard && Trim(buffer) != "" {
        calls := calls + [Line(Trim(buffer))];
      }
    }
  }
}
