/** Cutting text into overlapping character chunks and dropping the blank ones. */
module Chunks {
  import opened Prelude

  /** The distance between chunk starts: at least one character. */
  ghost function StrideOf(size: int, overlap: int): (step: int)
    ensures step >= 1
  {
    if size - overlap >= 1 then size - overlap else 1
  }

  ghost function Min(a: int, b: int): int {
    if a <= b then a else b
  }

  /** The chunks that start at `i`, `i + step`, and so on. */
  ghost function ChunksFrom(text: string, i: nat, size: nat, step: nat): seq<string>
    requires step >= 1
    decreases |text| - i
  {
    if i >= |text| then []
    else [text[i..Min(i + size, |text|)]] + ChunksFrom(text, i + step, size, step)
  }

  /** Before filtering, chunk `k` starts `k` strides in, so neighbours share exactly the overlap. */
  lemma ChunkAt(text: string, size: nat, overlap: nat, stride: nat, k: nat)
    requires overlap < size && stride == size - overlap && k * stride < |text|
    ensures var chunks, start := ChunksFrom(text, 0, size, StrideOf(size, overlap)), k * stride;
      k < |chunks| && chunks[k] == if start + size <= |text| then text[start..start + size] else text[start..]
  {
    assert StrideOf(size, overlap) == stride;
    hide ChunksFrom;
    FromAt(text, 0, size, stride, k);
  }

  lemma {:induction false} FromAt(text: string, i: nat, size: nat, step: nat, k: nat)
    requires step >= 1 && i + k * step < |text|
    ensures var chunks, start := ChunksFrom(text, i, size, step), i + k * step;
      k < |chunks| && chunks[k] == text[start..Min(start + size, |text|)]
    decreases k
  {
    if k > 0 {
      assert k * step == step + (k - 1) * step;
      FromAt(text, i + step, size, step, k - 1);
    }
  }

  ghost predicate Blank(s: string, space: char -> bool) {
    forall c :: c in s ==> space(c)
  }

  /** Whether anything would be left after stripping. */
  predicate IsBlank(s: string, space: char -> bool)
    ensures IsBlank(s, space) <==> Blank(s, space)
  {
    s == "" || (space(s[0]) && IsBlank(s[1..], space))
  }

  /** The chunks that are not blank, in order. */
  ghost function Kept(chunks: seq<string>, space: char -> bool): seq<string> {
    if chunks == [] then []
    else (if IsBlank(chunks[0], space) then [] else [chunks[0]]) + Kept(chunks[1..], space)
  }

  method SplitChars(text: string, size: nat, overlap: int, space: char -> bool) returns (chunks: seq<string>)
    ensures chunks == Kept(ChunksFrom(text, 0, size, StrideOf(size, overlap)), space)
  {
    var i: nat := 0;
    var step := size - overlap;
    if step < 1 { step := 1; }
    var all: seq<string> := [];
    while i < |text|
      invariant ChunksFrom(text, 0, size, step) == all + ChunksFrom(text, i, size, step)
    {
      var chunk := if i + size <= |text| then text[i..i + size] else text[i..];
      assert chunk == text[i..Min(i + size, |text|)];
      assert ChunksFrom(text, i, size, step) == [chunk] + ChunksFrom(text, i + step, size, step);
      Regroup(all, [chunk], ChunksFrom(text, i + step, size, step));
      all := all + [chunk];
      i := i + step;
    }
    assert all == ChunksFrom(text, 0, size, step);
    chunks := DropBlank(all, space);
  }

  /** The comprehension that keeps what stripping leaves something of. */
  method DropBlank(all: seq<string>, space: char -> bool) returns (chunks: seq<string>)
    ensures chunks == Kept(all, space)
  {
    chunks := [];
    for k := 0 to |all|
      invariant Kept(all, space) == chunks + Kept(all[k..], space)
    {
      assert all[k..][1..] == all[k + 1..];
      var one := if IsBlank(all[k], space) then [] else [all[k]];
      Regroup(chunks, one, Kept(all[k + 1..], space));
      chunks := chunks + one;
    }
  }

  /** Each chunk's part before the next chunk starts, joined. */
  ghost function Heads(chunks: seq<string>, step: nat): string {
    if chunks == [] then "" else chunks[0][..Min(step, |chunks[0]|)] + Heads(chunks[1..], step)
  }

  /** Before filtering, the chunks' heads reassemble the text: nothing is lost, nothing doubled. */
  lemma {:induction false} HeadsReassemble(text: string, i: nat, size: nat, step: nat)
    requires 1 <= step <= size && i <= |text|
    ensures Heads(ChunksFrom(text, i, size, step), step) == text[i..]
    decreases |text| - i
  {
    if i < |text| {
      var chunk, rest := text[i..Min(i + size, |text|)], ChunksFrom(text, i + step, size, step);
      assert ([chunk] + rest)[1..] == rest;
      if i + step <= |text| {
        HeadsReassemble(text, i + step, size, step);
        assert text[i..] == text[i..i + step] + text[i + step..];
      } else {
        assert rest == [] && chunk == text[i..];
      }
    }
  }

  /** The text without its blanks. */
  ghost function Squeeze(s: string, space: char -> bool): string {
    if s == "" then "" else (if space(s[0]) then "" else [s[0]]) + Squeeze(s[1..], space)
  }

  lemma {:induction false} SqueezeJoins(a: string, b: string, space: char -> bool)
    ensures Squeeze(a + b, space) == Squeeze(a, space) + Squeeze(b, space)
  {
    hide Squeeze, First;
    if a == "" {
      SqueezeNothing(b, space);
    } else {
      SqueezeJoins(a[1..], b, space);
      SqueezeHead(a + b, space);
      SqueezeHead(a, space);
      SumTail(a, b);
      SameFirst(a, a + b, space);
      Regroup(First(a, space), Squeeze(a[1..], space), Squeeze(b, space));
    }
  }

  lemma SqueezeNothing(b: string, space: char -> bool)
    ensures "" + b == b && Squeeze("", space) == "" && Squeeze("", space) + Squeeze(b, space) == Squeeze(b, space)
  {
  }

  lemma SameFirst(a: string, b: string, space: char -> bool)
    requires a != "" && b != "" && a[0] == b[0]
    ensures First(a, space) == First(b, space)
  {
  }

  ghost function First(s: string, space: char -> bool): string
    requires s != ""
  {
    if space(s[0]) then "" else [s[0]]
  }

  lemma SqueezeHead(s: string, space: char -> bool)
    requires s != ""
    ensures Squeeze(s, space) == First(s, space) + Squeeze(s[1..], space)
  {
  }

  lemma {:induction false} BlankSqueezesAway(s: string, space: char -> bool)
    requires Blank(s, space)
    ensures Squeeze(s, space) == ""
  {
    if s != "" {
      assert s[0] in s;
      BlankSqueezesAway(s[1..], space);
    }
  }

  lemma {:induction false} FilterLosesBlanks(chunks: seq<string>, step: nat, space: char -> bool)
    ensures Squeeze(Heads(Kept(chunks, space), step), space) == Squeeze(Heads(chunks, step), space)
  {
    if chunks != [] {
      var head, kept := chunks[0][..Min(step, |chunks[0]|)], Kept(chunks[1..], space);
      FilterLosesBlanks(chunks[1..], step, space);
      SqueezeJoins(head, Heads(chunks[1..], step), space);
      if IsBlank(chunks[0], space) {
        BlankSqueezesAway(head, space);
        assert Kept(chunks, space) == kept;
      } else {
        SqueezeJoins(head, Heads(kept, step), space);
        assert ([chunks[0]] + kept)[1..] == kept;
      }
    }
  }

  /** After filtering, for every overlap the configuration allows, only whitespace can be missing. */
  lemma OnlyBlanksAreLost(text: string, size: nat, overlap: nat, space: char -> bool)
    requires size >= 1
    ensures var step := StrideOf(size, overlap);
            var chunks := Kept(ChunksFrom(text, 0, size, step), space);
            Squeeze(Heads(chunks, step), space) == Squeeze(text, space)
  {
    var step := StrideOf(size, overlap);
    HeadsReassemble(text, 0, size, step);
    FilterLosesBlanks(ChunksFrom(text, 0, size, step), step, space);
    assert text[0..] == text;
  }
}
