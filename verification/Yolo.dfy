/** YOLO label files: written from annotations, and read back by any reader that knows the digits. */
module Yolo {
  import opened Prelude
  import opened Decimal

  datatype Annotation = Annotation(classKey: string, coords: seq<Number>)

  // ---- Splitting text ----

  /** What the language's own text functions do: which characters split, and how numbers are read. */
  datatype Reader = Reader(space: char -> bool, ends: char -> bool, integer: string -> Option<int>,
                           number: string -> Option<Number>)

  /** The reader may know more characters and spellings, but reads plain digits as such. */
  ghost predicate Standard(rd: Reader) {
    && rd.space(' ') && rd.ends('\n') && !rd.ends(' ')
    && (forall c: char :: NumberChar(c) ==> !rd.space(c) && !rd.ends(c))
    && (forall s: string :: ReadInt(s).Some? ==> rd.integer(s) == ReadInt(s))
    && (forall s: string :: ReadNumber(s).Some? ==> rd.number(s) == ReadNumber(s))
  }

  ghost predicate Word(s: string, space: char -> bool) {
    s != "" && forall c :: c in s ==> !space(c)
  }

  function WordLength(s: string, space: char -> bool): (k: nat)
    ensures k <= |s| && (forall i :: 0 <= i < k ==> !space(s[i])) && (k < |s| ==> space(s[k]))
  {
    if s == "" || space(s[0]) then 0 else 1 + WordLength(s[1..], space)
  }

  /** Maximal runs of non-space characters. */
  function Words(s: string, space: char -> bool): seq<string>
    decreases |s|
  {
    if s == "" then []
    else if space(s[0]) then Words(s[1..], space)
    else [s[..WordLength(s, space)]] + Words(s[WordLength(s, space)..], space)
  }

  lemma FirstWord(w: string, rest: string, space: char -> bool)
    requires Word(w, space) && space(' ')
    ensures Words(w + " " + rest, space) == [w] + Words(rest, space)
    ensures Words(w, space) == [w]
  {
    var s := w + " " + rest;
    assert w[0] in w && s[0] == w[0];
    forall i | 0 <= i < |w| ensures !space(s[i]) && !space(w[i]) {
      assert s[i] == w[i] && w[i] in w;
    }
    assert s[|w|] == ' ';
    assert WordLength(s, space) == |w|;
    assert s[..|w|] == w && s[|w|..] == " " + rest;
    assert (" " + rest)[1..] == rest;
    assert WordLength(w, space) == |w| && w[..|w|] == w && w[|w|..] == "";
  }

  /** The first word of a text is not changed by what follows a space. */
  lemma FirstWordStays(a: string, c: char, b: string, space: char -> bool)
    requires a != "" && !space(a[0]) && space(c)
    ensures var s, k := a + [c] + b, WordLength(a, space);
      WordLength(s, space) == k > 0 && s[..k] == a[..k] && s[k..] == a[k..] + [c] + b
  {
    var s, k := a + [c] + b, WordLength(a, space);
    assert s[|a|] == c;
    assert forall i :: 0 <= i < |a| ==> s[i] == a[i];
    assert WordLength(s, space) == k;
    assert s[..k] == a[..k] && s[k..] == a[k..] + [c] + b;
  }

  /** A space ends whatever word it follows, and makes none; with single words this fixes the splitting. */
  lemma {:induction false} WordsSplit(a: string, c: char, b: string, space: char -> bool)
    requires space(c)
    ensures Words(a + [c] + b, space) == Words(a, space) + Words(b, space)
    decreases |a|
  {
    var s := a + [c] + b;
    hide WordLength;
    if a == "" {
      assert s[0] == c && s[1..] == b;
    } else if space(a[0]) {
      assert s[0] == a[0] && s[1..] == a[1..] + [c] + b;
      WordsSplit(a[1..], c, b, space);
    } else {
      var k := WordLength(a, space);
      FirstWordStays(a, c, b, space);
      WordsSplit(a[k..], c, b, space);
      assert Words(s, space) == [s[..k]] + Words(s[k..], space);
      Regroup([a[..k]], Words(a[k..], space), Words(b, space));
    }
  }

  function LineLength(s: string, ends: char -> bool): (k: nat)
    ensures k <= |s| && (forall i :: 0 <= i < k ==> !ends(s[i])) && (k < |s| ==> ends(s[k]))
  {
    if s == "" || ends(s[0]) then 0 else 1 + LineLength(s[1..], ends)
  }

  /** A return before a line feed makes an empty line here, which holds no annotation. */
  function Lines(s: string, ends: char -> bool): seq<string>
    decreases |s|
  {
    if s == "" then []
    else
      var k := LineLength(s, ends);
      [s[..k]] + if k < |s| then Lines(s[k + 1..], ends) else []
  }

  ghost predicate Unbroken(l: string, ends: char -> bool) {
    forall c :: c in l ==> !ends(c)
  }

  /** The first line goes up to the first character that ends one, and the rest follows it. */
  lemma FirstLine(l: string, c: char, rest: string, ends: char -> bool)
    requires Unbroken(l, ends) && ends(c)
    ensures Lines(l + [c] + rest, ends) == [l] + Lines(rest, ends)
    ensures l != "" ==> Lines(l, ends) == [l]
  {
    var s := l + [c] + rest;
    forall i | 0 <= i < |l| ensures !ends(s[i]) && !ends(l[i]) {
      assert s[i] == l[i] && l[i] in l;
    }
    assert s[|l|] == c;
    assert LineLength(s, ends) == |l| && LineLength(l, ends) == |l|;
    assert s[..|l|] == l && s[|l| + 1..] == rest && l[..|l|] == l;
  }

  // ---- Writing labels ----

  /** The position of a class, the last one if the key is listed twice. */
  ghost function IndexOf(names: seq<string>, key: string): Option<nat> {
    if names == [] then None
    else if names[|names| - 1] == key then Some(|names| - 1)
    else IndexOf(names[..|names| - 1], key)
  }

  lemma {:induction false} IndexIsPosition(names: seq<string>, key: string)
    ensures IndexOf(names, key).Some? <==> key in names
    ensures IndexOf(names, key).Some? ==>
      IndexOf(names, key).value < |names| && names[IndexOf(names, key).value] == key
  {
    if names != [] {
      IndexIsPosition(names[..|names| - 1], key);
      assert names == names[..|names| - 1] + [names[|names| - 1]];
    }
  }

  method ClassIndex(names: seq<string>) returns (index: map<string, nat>)
    ensures forall key :: key in index <==> IndexOf(names, key).Some?
    ensures forall key :: key in index ==> index[key] == IndexOf(names, key).value
  {
    index := map[];
    for i := 0 to |names|
      invariant forall key :: key in index <==> IndexOf(names[..i], key).Some?
      invariant forall key :: key in index ==> index[key] == IndexOf(names[..i], key).value
    {
      index := index[names[i] := i];
      assert names[..i + 1][..i] == names[..i];
    }
    assert names[..|names|] == names;
  }

  /** Rounding to the nearest millionth, however it breaks ties. */
  ghost predicate Rounds(round: real -> nat) {
    && (forall n: nat :: round(Micro(n)) == n)
    && (forall x: real :: x >= 0.0 ==> -0.5 <= x * 1000000.0 - round(x) as real <= 0.5)
  }

  ghost predicate Exported(a: Annotation, names: seq<string>) {
    IndexOf(names, a.classKey).Some? && |a.coords| == 4
  }

  ghost function Line(a: Annotation, names: seq<string>, round: real -> nat): string
    requires Exported(a, names)
  {
    Spaced(IntText(IndexOf(names, a.classKey).value), NumberText(a.coords[0], round),
           NumberText(a.coords[1], round), NumberText(a.coords[2], round), NumberText(a.coords[3], round))
  }

  function Spaced(w0: string, w1: string, w2: string, w3: string, w4: string): string {
    w0 + " " + w1 + " " + w2 + " " + w3 + " " + w4
  }

  /** A label file: one terminated line for each annotation of a known class with four coordinates. */
  ghost function LabelText(payload: seq<Annotation>, names: seq<string>, round: real -> nat): string {
    if payload == [] then ""
    else (if Exported(payload[0], names) then Line(payload[0], names, round) + "\n" else "")
         + LabelText(payload[1..], names, round)
  }

  function JoinLines(lines: seq<string>): string {
    if lines == [] then ""
    else if |lines| == 1 then lines[0]
    else lines[0] + "\n" + JoinLines(lines[1..])
  }

  lemma {:induction false} JoinWithEnd(lines: seq<string>, last: string)
    ensures JoinLines(lines + [last]) == (if lines == [] then "" else JoinLines(lines) + "\n") + last
  {
    if |lines| == 1 {
      assert (lines + [last])[1..] == [last];
    } else if lines != [] {
      JoinWithEnd(lines[1..], last);
      assert (lines + [last])[1..] == lines[1..] + [last];
    }
  }

  /** The collected lines as the file will hold them. */
  function Terminated(lines: seq<string>): string {
    JoinLines(lines) + if lines != [] then "\n" else ""
  }

  lemma TerminatedOneMore(lines: seq<string>, line: string, rest: string)
    ensures Terminated(lines + [line]) + rest == Terminated(lines) + (line + "\n" + rest)
  {
    JoinWithEnd(lines, line);
    var front := Terminated(lines);
    assert Terminated(lines + [line]) == front + line + "\n";
    assert (front + line + "\n") + rest == front + (line + "\n" + rest);
  }

  lemma TextAt(payload: seq<Annotation>, i: nat, names: seq<string>, round: real -> nat)
    requires i < |payload|
    ensures LabelText(payload[i..], names, round)
         == (if Exported(payload[i], names) then Line(payload[i], names, round) + "\n" else "")
            + LabelText(payload[i + 1..], names, round)
  {
    assert payload[i..][1..] == payload[i + 1..];
  }

  /** The writer collects the lines, joins them, and ends the file with a newline unless it is empty. */
  method LabelLines(payload: seq<Annotation>, names: seq<string>, index: map<string, nat>, round: real -> nat)
    returns (text: string)
    requires forall key :: key in index <==> IndexOf(names, key).Some?
    requires forall key :: key in index ==> index[key] == IndexOf(names, key).value
    ensures text == LabelText(payload, names, round)
  {
    var lines: seq<string> := [];
    hide JoinLines, LabelText, Terminated, NumberText, IntText, IndexOf, Spaced;
    assert payload[0..] == payload;
    NoLines();
    for i := 0 to |payload|
      invariant Terminated(lines) + LabelText(payload[i..], names, round) == LabelText(payload, names, round)
    {
      var a := payload[i];
      TextAt(payload, i, names, round);
      if a.classKey in index && |a.coords| == 4 {
        var line := Spaced(IntText(index[a.classKey]), NumberText(a.coords[0], round),
                           NumberText(a.coords[1], round), NumberText(a.coords[2], round),
                           NumberText(a.coords[3], round));
        assert line == Line(a, names, round);
        hide Line;
        TerminatedOneMore(lines, line, LabelText(payload[i + 1..], names, round));
        lines := lines + [line];
      }
    }
    NoText(payload, names, round);
    text := Terminated(lines);
  }

  lemma NoLines()
    ensures forall s: string :: Terminated([]) + s == s
  {
  }

  lemma NoText(payload: seq<Annotation>, names: seq<string>, round: real -> nat)
    ensures LabelText(payload[|payload|..], names, round) == ""
    ensures forall s: string :: s + "" == s
  {
  }

  // ---- Reading labels ----

  /** One line: no annotation for a short line or an unknown class, an error for unreadable numbers. */
  ghost function ReadLine(line: string, names: seq<string>, rd: Reader): Result<seq<Annotation>> {
    var parts := Words(line, rd.space);
    if |parts| < 5 then Ok([])
    else if rd.integer(parts[0]).None? then Err
    else
      var idx := rd.integer(parts[0]).value;
      if idx >= |names| then Ok([])
      else
        var a, b, c, d := rd.number(parts[1]), rd.number(parts[2]), rd.number(parts[3]), rd.number(parts[4]);
        if a.None? || b.None? || c.None? || d.None? || idx < -|names| then Err
        else Ok([Annotation(names[if idx < 0 then |names| + idx else idx], [a.value, b.value, c.value, d.value])])
  }

  ghost function ReadLines(lines: seq<string>, names: seq<string>, rd: Reader): Result<seq<Annotation>> {
    if lines == [] then Ok([])
    else
      var first := ReadLine(lines[0], names, rd);
      var rest := ReadLines(lines[1..], names, rd);
      if first.Err? || rest.Err? then Err else Ok(first.value + rest.value)
  }

  ghost function ReadText(text: string, names: seq<string>, rd: Reader): Result<seq<Annotation>> {
    ReadLines(Lines(text, rd.ends), names, rd)
  }

  /** The first `i` lines gave `found`; the rest decides. */
  ghost predicate ReadUpTo(lines: seq<string>, i: nat, found: seq<Annotation>, names: seq<string>, rd: Reader)
    requires i <= |lines|
  {
    var rest := ReadLines(lines[i..], names, rd);
    ReadLines(lines, names, rd) == if rest.Err? then Err else Ok(found + rest.value)
  }

  lemma ReadOneMore(lines: seq<string>, i: nat, found: seq<Annotation>, names: seq<string>, rd: Reader)
    requires i < |lines| && ReadUpTo(lines, i, found, names, rd)
    ensures var first := ReadLine(lines[i], names, rd);
            if first.Err? then ReadLines(lines, names, rd).Err?
            else ReadUpTo(lines, i + 1, found + first.value, names, rd)
  {
    hide ReadLine;
    assert lines[i..][1..] == lines[i + 1..];
    var first, rest := ReadLine(lines[i], names, rd), ReadLines(lines[i + 1..], names, rd);
    if first.Ok? && rest.Ok? { assert found + (first.value + rest.value) == (found + first.value) + rest.value; }
  }

  lemma ReadEnds(lines: seq<string>, found: seq<Annotation>, names: seq<string>, rd: Reader)
    ensures ReadUpTo(lines, 0, [], names, rd)
    ensures ReadUpTo(lines, |lines|, found, names, rd) ==> ReadLines(lines, names, rd) == Ok(found)
  {
    assert lines[0..] == lines && lines[|lines|..] == [];
    var all := ReadLines(lines, names, rd);
    assert all.Ok? ==> [] + all.value == all.value;
    assert found + [] == found;
  }

  /** The reader of one label file. */
  method ParseLabels(text: string, names: seq<string>, rd: Reader) returns (anns: Result<seq<Annotation>>)
    ensures anns == ReadText(text, names, rd)
  {
    hide ReadUpTo, ReadLines, Lines, Words;
    var lines := Lines(text, rd.ends);
    var found: seq<Annotation> := [];
    ReadEnds(lines, [], names, rd);
    for i := 0 to |lines|
      invariant ReadUpTo(lines, i, found, names, rd)
    {
      ReadOneMore(lines, i, found, names, rd);
      assert found + [] == found;
      var parts := Words(lines[i], rd.space);
      if |parts| < 5 { continue; }
      var idx := rd.integer(parts[0]);
      if idx.None? { return Err; }
      if idx.value >= |names| { continue; }
      var a, b, c, d := rd.number(parts[1]), rd.number(parts[2]), rd.number(parts[3]), rd.number(parts[4]);
      if a.None? || b.None? || c.None? || d.None? || idx.value < -|names| { return Err; }
      found := found + [Annotation(names[if idx.value < 0 then |names| + idx.value else idx.value],
                                   [a.value, b.value, c.value, d.value])];
    }
    ReadEnds(lines, found, names, rd);
    anns := Ok(found);
  }

  // ---- The label round trip ----

  lemma NumberIsWord(s: string, rd: Reader)
    requires Standard(rd) && s != "" && forall c :: c in s ==> NumberChar(c)
    ensures Word(s, rd.space) && Unbroken(s, rd.ends)
  {
    hide ReadInt, ReadNumber;
  }

  /** What a standard reader makes of one printed number. */
  lemma NumberIsRead(x: Number, round: real -> nat, rd: Reader)
    requires Standard(rd)
    ensures rd.number(NumberText(x, round)) == Some(Rounded(x, round))
    ensures Word(NumberText(x, round), rd.space) && Unbroken(NumberText(x, round), rd.ends)
  {
    hide NumberText, ReadInt, ReadNumber, Rounded;
    NumberReadsBack(x, round);
    NumberChars(x, round);
    NumberIsWord(NumberText(x, round), rd);
  }

  lemma IndexIsRead(n: nat, rd: Reader)
    requires Standard(rd)
    ensures rd.integer(IntText(n)) == Some(n) && Word(IntText(n), rd.space) && Unbroken(IntText(n), rd.ends)
  {
    hide IntText, ReadInt, ReadNumber;
    IntReadsBack(n);
    IntChars(n);
    NumberIsWord(IntText(n), rd);
  }

  lemma LineReadsBack(a: Annotation, names: seq<string>, round: real -> nat, rd: Reader)
    requires Standard(rd) && Exported(a, names)
    ensures ReadLine(Line(a, names, round), names, rd) == Ok([AtPrecision(a, round)])
    ensures Unbroken(Line(a, names, round), rd.ends)
  {
    var idx := IndexOf(names, a.classKey).value;
    IndexIsPosition(names, a.classKey);
    BoxReadsBack(idx, a.coords[0], a.coords[1], a.coords[2], a.coords[3], names, round, rd);
  }

  lemma BoxReadsBack(idx: nat, a: Number, b: Number, c: Number, d: Number, names: seq<string>,
                     round: real -> nat, rd: Reader)
    requires Standard(rd) && idx < |names|
    ensures var line := Spaced(IntText(idx), NumberText(a, round), NumberText(b, round), NumberText(c, round),
                               NumberText(d, round));
      && Unbroken(line, rd.ends)
      && ReadLine(line, names, rd) == Ok([Annotation(names[idx], [Rounded(a, round), Rounded(b, round),
                                                                  Rounded(c, round), Rounded(d, round)])])
  {
    hide *;
    IndexIsRead(idx, rd);
    NumberIsRead(a, round, rd); NumberIsRead(b, round, rd); NumberIsRead(c, round, rd); NumberIsRead(d, round, rd);
    ReadFive(IntText(idx), NumberText(a, round), NumberText(b, round), NumberText(c, round), NumberText(d, round),
             names, rd);
  }

  /** A line of five readable words. */
  lemma ReadFive(w0: string, w1: string, w2: string, w3: string, w4: string, names: seq<string>, rd: Reader)
    requires Standard(rd) && Word(w0, rd.space) && Word(w1, rd.space) && Word(w2, rd.space)
    requires Word(w3, rd.space) && Word(w4, rd.space)
    requires Unbroken(w0, rd.ends) && Unbroken(w1, rd.ends) && Unbroken(w2, rd.ends)
    requires Unbroken(w3, rd.ends) && Unbroken(w4, rd.ends)
    requires rd.integer(w0).Some? && 0 <= rd.integer(w0).value < |names|
    requires rd.number(w1).Some? && rd.number(w2).Some? && rd.number(w3).Some? && rd.number(w4).Some?
    ensures Unbroken(Spaced(w0, w1, w2, w3, w4), rd.ends)
    ensures ReadLine(Spaced(w0, w1, w2, w3, w4), names, rd)
         == Ok([Annotation(names[rd.integer(w0).value], [rd.number(w1).value, rd.number(w2).value,
                                                         rd.number(w3).value, rd.number(w4).value])])
  {
    FiveWords(w0, w1, w2, w3, w4, rd);
    hide Standard, Word, Unbroken, Words, Spaced;
  }

  lemma FiveWords(w0: string, w1: string, w2: string, w3: string, w4: string, rd: Reader)
    requires Standard(rd) && Word(w0, rd.space) && Word(w1, rd.space) && Word(w2, rd.space)
    requires Word(w3, rd.space) && Word(w4, rd.space)
    requires Unbroken(w0, rd.ends) && Unbroken(w1, rd.ends) && Unbroken(w2, rd.ends)
    requires Unbroken(w3, rd.ends) && Unbroken(w4, rd.ends)
    ensures Words(Spaced(w0, w1, w2, w3, w4), rd.space) == [w0, w1, w2, w3, w4]
    ensures Unbroken(Spaced(w0, w1, w2, w3, w4), rd.ends)
  {
    assert rd.space(' ') && !rd.ends(' ');
    hide *;
    RightToLeft(w0, w1, w2, w3, w4, rd.space);
    OneBreakless(w0, w1, w2, w3, w4, rd.ends);
    LeftToRight(w0, w1, w2, w3, w4);
  }

  lemma RightToLeft(w0: string, w1: string, w2: string, w3: string, w4: string, space: char -> bool)
    requires space(' ') && Word(w0, space) && Word(w1, space) && Word(w2, space)
    requires Word(w3, space) && Word(w4, space)
    ensures Words(w0 + " " + (w1 + " " + (w2 + " " + (w3 + " " + w4))), space) == [w0, w1, w2, w3, w4]
  {
    hide *;
    FirstWord(w4, "", space);
    FirstWord(w3, w4, space);
    FirstWord(w2, w3 + " " + w4, space);
    FirstWord(w1, w2 + " " + (w3 + " " + w4), space);
    FirstWord(w0, w1 + " " + (w2 + " " + (w3 + " " + w4)), space);
  }

  lemma LeftToRight(w0: string, w1: string, w2: string, w3: string, w4: string)
    ensures Spaced(w0, w1, w2, w3, w4) == w0 + " " + (w1 + " " + (w2 + " " + (w3 + " " + w4)))
  {
    assert w2 + " " + w3 + " " + w4 == w2 + " " + (w3 + " " + w4);
    assert w1 + " " + w2 + " " + w3 + " " + w4 == w1 + " " + (w2 + " " + w3 + " " + w4);
    assert w0 + " " + w1 + " " + w2 + " " + w3 + " " + w4 == w0 + " " + (w1 + " " + w2 + " " + w3 + " " + w4);
  }

  lemma OneBreakless(w0: string, w1: string, w2: string, w3: string, w4: string, ends: char -> bool)
    requires !ends(' ') && Unbroken(w0, ends) && Unbroken(w1, ends) && Unbroken(w2, ends)
    requires Unbroken(w3, ends) && Unbroken(w4, ends)
    ensures Unbroken(Spaced(w0, w1, w2, w3, w4), ends)
  {
    forall c | c in Spaced(w0, w1, w2, w3, w4) ensures !ends(c) {
      assert c in w0 || c in w1 || c in w2 || c in w3 || c in w4 || c == ' ';
    }
  }

  /** The annotation with its coordinates rounded to millionths. */
  ghost function AtPrecision(a: Annotation, round: real -> nat): Annotation
    requires |a.coords| == 4
  {
    Annotation(a.classKey, [Rounded(a.coords[0], round), Rounded(a.coords[1], round),
                            Rounded(a.coords[2], round), Rounded(a.coords[3], round)])
  }

  /** What survives an export: known classes with four coordinates, in order, at six decimals. */
  ghost function Survivors(payload: seq<Annotation>, names: seq<string>, round: real -> nat): seq<Annotation> {
    if payload == [] then []
    else (if Exported(payload[0], names) then [AtPrecision(payload[0], round)] else [])
         + Survivors(payload[1..], names, round)
  }

  lemma ReadCons(line: string, more: seq<string>, names: seq<string>, rd: Reader)
    ensures var first, rest := ReadLine(line, names, rd), ReadLines(more, names, rd);
      ReadLines([line] + more, names, rd) == if first.Err? || rest.Err? then Err else Ok(first.value + rest.value)
  {
    hide ReadLine;
    assert ([line] + more)[1..] == more;
  }

  /** Importing an exported label file gives the ordered boxes of known classes at six decimals. */
  lemma {:induction false} LabelsReadBack(payload: seq<Annotation>, names: seq<string>, round: real -> nat, rd: Reader)
    requires Standard(rd)
    ensures ReadText(LabelText(payload, names, round), names, rd) == Ok(Survivors(payload, names, round))
  {
    if payload != [] {
      LabelsReadBack(payload[1..], names, round, rd);
      var rest := LabelText(payload[1..], names, round);
      TextCons(payload, names, round);
      if Exported(payload[0], names) {
        var line := Line(payload[0], names, round);
        LineReadsBack(payload[0], names, round, rd);
        assert rd.ends('\n');
        hide LabelText, Survivors, Line, Lines, ReadLine, ReadLines, AtPrecision, Standard, Unbroken;
        FirstLine(line, '\n', rest, rd.ends);
        ReadCons(line, Lines(rest, rd.ends), names, rd);
      }
    }
  }

  lemma TextCons(payload: seq<Annotation>, names: seq<string>, round: real -> nat)
    requires payload != []
    ensures var a, rest := payload[0], payload[1..];
            if Exported(a, names)
            then LabelText(payload, names, round) == Line(a, names, round) + "\n" + LabelText(rest, names, round)
                 && Survivors(payload, names, round) == [AtPrecision(a, round)] + Survivors(rest, names, round)
            else LabelText(payload, names, round) == LabelText(rest, names, round)
                 && Survivors(payload, names, round) == Survivors(rest, names, round)
  {
  }

  /** No coordinate moves by more than half a millionth, and none changes its sign. */
  lemma PrecisionKept(a: Annotation, round: real -> nat, i: nat)
    requires |a.coords| == 4 && i < 4 && Rounds(round) && a.coords[i].Finite? && a.coords[i].size >= 0.0
    ensures var x, y := a.coords[i], AtPrecision(a, round).coords[i];
      y.Finite? && y.negative == x.negative && -0.0000005 <= x.size - y.size <= 0.0000005
  {
    var x := a.coords[i].size;
    assert -0.5 <= x * 1000000.0 - round(x) as real <= 0.5;
  }

  lemma RoundedOnce(x: Number, round: real -> nat)
    requires Rounds(round)
    ensures NumberText(Rounded(x, round), round) == NumberText(x, round)
  {
    hide Fixed;
  }

  lemma LineAgain(a: Annotation, names: seq<string>, round: real -> nat)
    requires Rounds(round) && Exported(a, names)
    ensures var b := AtPrecision(a, round); Exported(b, names) && Line(b, names, round) == Line(a, names, round)
  {
    hide NumberText, Rounds, Rounded, IntText, IndexOf, Spaced;
    RoundedOnce(a.coords[0], round);
    RoundedOnce(a.coords[1], round);
    RoundedOnce(a.coords[2], round);
    RoundedOnce(a.coords[3], round);
  }

  /** Exporting what was imported gives the same label text, character for character. */
  lemma {:induction false} ReExportIsIdentical(payload: seq<Annotation>, names: seq<string>, round: real -> nat)
    requires Rounds(round)
    ensures LabelText(Survivors(payload, names, round), names, round) == LabelText(payload, names, round)
  {
    if payload != [] {
      hide Rounds, Line, AtPrecision, Exported;
      ReExportIsIdentical(payload[1..], names, round);
      var rest := Survivors(payload[1..], names, round);
      if Exported(payload[0], names) {
        assert |payload[0].coords| == 4 by { OnlyBoxes(payload[0], names); }
        var b := AtPrecision(payload[0], round);
        LineAgain(payload[0], names, round);
        assert ([b] + rest)[0] == b && ([b] + rest)[1..] == rest;
      } else {
        assert [] + rest == rest;
      }
    }
  }

  lemma OnlyBoxes(a: Annotation, names: seq<string>)
    requires Exported(a, names)
    ensures |a.coords| == 4
  {
  }
}
