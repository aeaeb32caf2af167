/** What printed JSON looks like: one line, or lines indented by two spaces a level with one
    element on each. */
module JsonLayout {
  import opened Common
  import opened JsonPrint

  // ---------------------------------------------------------------- on one line

  /** No control character, and so no line break. */
  ghost predicate OneLine(t: string) {
    forall c :: c in t ==> c as int >= 0x20 && c as int != 0x7f
  }

  lemma {:induction false} DecimalOneLine(n: nat)
    ensures OneLine(Decimal(n))
  {
    if n < 10 {
    } else {
      DecimalOneLine(n / 10);
    }
  }

  lemma {:induction false} EscapedOneLine(s: string)
    ensures OneLine(Escaped(s))
  {
    if s == "" {
    } else {
      assert OneLine(Escape(s[0]));
      EscapedOneLine(s[1..]);
    }
  }

  /** The compact text is on one line, and holds no control character, whatever is in the
      strings. */
  lemma {:induction false} CompactOneLine(v: Json)
    ensures OneLine(Text(v, Compact))
    decreases v, 1
  {
    match v
    case Int(n) => DecimalOneLine(if n < 0 then -n else n);
    case UInt(u) => DecimalOneLine(u);
    case Str(s) => EscapedOneLine(s);
    case Arr(items) => if items != [] { ItemsOneLine(v, 0); }
    case Obj(pairs) => if pairs != [] { PairsOneLine(v, 0); }
    case _ =>
  }

  lemma {:induction false} ItemsOneLine(v: Json, i: nat)
    requires v.Arr? && i < |v.items|
    ensures OneLine(Items(v, i, Compact))
    decreases v, 0, |v.items| - i
  {
    CompactOneLine(v.items[i]);
    if i + 1 == |v.items| {
    } else {
      ItemsOneLine(v, i + 1);
    }
  }

  lemma {:induction false} PairsOneLine(v: Json, i: nat)
    requires v.Obj? && i < |v.pairs|
    ensures OneLine(Pairs(v, i, Compact))
    decreases v, 0, |v.pairs| - i
  {
    hide Pair;
    CompactOneLine(v.pairs[i].1);
    PairOneLine(v, i);
    if i + 1 == |v.pairs| {
    } else {
      PairsOneLine(v, i + 1);
    }
  }

  lemma PairOneLine(v: Json, i: nat)
    requires v.Obj? && i < |v.pairs| && OneLine(Text(v.pairs[i].1, Compact))
    ensures OneLine(Pair(v, i, Compact))
  {
    hide Text;
    EscapedOneLine(v.pairs[i].0);
  }

  // ---------------------------------------------------------------- indented

  /** The lines of a value: its text, if it has no elements; else a bracket, the lines of each
      element two spaces further in, with a comma after each but the last, and a bracket. */
  ghost function Lines(v: Json): (ls: seq<string>)
    ensures ls != []
    decreases v, 1
  {
    match v
    case Arr(items) => if items == [] then ["[]"] else ["["] + Shifted(ItemLines(v, 0)) + ["]"]
    case Obj(pairs) => if pairs == [] then ["{}"] else ["{"] + Shifted(PairLines(v, 0)) + ["}"]
    case _ => [Text(v, Compact)]
  }

  ghost function ItemLines(v: Json, i: nat): (ls: seq<string>)
    requires v.Arr? && i < |v.items|
    ensures ls != []
    decreases v, 0, |v.items| - i
  {
    if i + 1 == |v.items| then Lines(v.items[i]) else Comma(Lines(v.items[i])) + ItemLines(v, i + 1)
  }

  /** The line a pair begins on begins with the key. */
  ghost function PairLines(v: Json, i: nat): (ls: seq<string>)
    requires v.Obj? && i < |v.pairs|
    ensures ls != []
    decreases v, 0, |v.pairs| - i
  {
    var ls := Lines(v.pairs[i].1);
    var keyed := ls[0 := Quoted(v.pairs[i].0) + ": " + ls[0]];
    if i + 1 == |v.pairs| then keyed else Comma(keyed) + PairLines(v, i + 1)
  }

  ghost function Shifted(ls: seq<string>): (r: seq<string>)
    ensures |r| == |ls|
  {
    seq(|ls|, i requires 0 <= i < |ls| => "  " + ls[i])
  }

  ghost function Comma(ls: seq<string>): (r: seq<string>)
    requires ls != []
    ensures |r| == |ls|
  {
    ls[|ls| - 1 := ls[|ls| - 1] + ","]
  }

  /** Lines one under the other, all but the first with `pad` before them. */
  ghost function Joined(ls: seq<string>, pad: string): string
    requires ls != []
  {
    if |ls| == 1 then ls[0] else Joined(ls[..|ls| - 1], pad) + "\n" + pad + ls[|ls| - 1]
  }

  /** `n` levels of indentation. */
  ghost function Spaces(n: nat): string {
    seq(2 * n, _ => ' ')
  }

  lemma {:induction false} PadIs(n: nat)
    ensures Pad(n) == Spaces(n)
  {
    if n == 0 {
    } else {
      PadIs(n - 1);
    }
  }

  lemma {:induction false} JoinedAppend(a: seq<string>, b: seq<string>, pad: string)
    requires a != [] && b != []
    ensures Joined(a + b, pad) == Joined(a, pad) + "\n" + pad + Joined(b, pad)
  {
    var n := |b| - 1;
    assert (a + b)[..|a| + n] == a + b[..n];
    if n == 0 {
      assert a + b[..n] == a;
    } else {
      JoinedAppend(a, b[..n], pad);
    }
  }

  lemma {:induction false} JoinedShifted(ls: seq<string>, pad: string)
    requires ls != []
    ensures Joined(Shifted(ls), pad) == "  " + Joined(ls, pad + "  ")
  {
    if |ls| == 1 {
    } else {
      var n := |ls| - 1;
      assert Shifted(ls)[..n] == Shifted(ls[..n]);
      JoinedShifted(ls[..n], pad);
    }
  }

  lemma JoinedComma(ls: seq<string>, pad: string)
    requires ls != []
    ensures Joined(Comma(ls), pad) == Joined(ls, pad) + ","
  {
    assert Comma(ls)[..|ls| - 1] == ls[..|ls| - 1];
  }

  lemma {:induction false} JoinedKeyed(ls: seq<string>, key: string, pad: string)
    requires ls != []
    ensures Joined(ls[0 := key + ls[0]], pad) == key + Joined(ls, pad)
  {
    var n := |ls| - 1;
    if n == 0 {
    } else {
      assert ls[0 := key + ls[0]][..n] == ls[..n][0 := key + ls[..n][0]];
      JoinedKeyed(ls[..n], key, pad);
    }
  }

  /** The indented text is the lines of the value, one under the other: two spaces a level,
      and one element a line. */
  lemma {:induction false} PrettyIsLines(v: Json, depth: nat)
    ensures Text(v, Pretty(depth)) == Joined(Lines(v), Spaces(depth))
    decreases v, 1
  {
    match v
    case Arr(items) =>
      if items != [] {
        ItemsAreLines(v, 0, depth);
        Bracketed("[", ItemLines(v, 0), "]", depth);
      }
    case Obj(pairs) =>
      if pairs != [] {
        PairsAreLines(v, 0, depth);
        Bracketed("{", PairLines(v, 0), "}", depth);
      }
    case _ =>
  }

  lemma Bracketed(open: string, ls: seq<string>, close: string, depth: nat)
    requires ls != []
    ensures var style := Pretty(depth);
      Joined([open] + Shifted(ls) + [close], Spaces(depth)) ==
        open + Opening(style) + Joined(ls, Spaces(depth + 1)) + Closing(style) + close
  {
    hide Joined, Shifted, Pad;
    var pad := Spaces(depth);
    PadIs(depth);
    PadIs(depth + 1);
    JoinedOne(open, pad);
    JoinedOne(close, pad);
    JoinedAppend([open], Shifted(ls), pad);
    JoinedAppend([open] + Shifted(ls), [close], pad);
    JoinedShifted(ls, pad);
    assert pad + "  " == Spaces(depth + 1);
    Glued(open, pad, Joined(ls, Spaces(depth + 1)), close);
  }

  lemma JoinedOne(l: string, pad: string)
    ensures Joined([l], pad) == l
  {
  }

  lemma Glued(open: string, pad: string, inside: string, close: string)
    ensures open + "\n" + pad + ("  " + inside) + "\n" + pad + close ==
      open + ("\n" + (pad + "  ")) + inside + ("\n" + pad) + close
  {
    assert open + "\n" + pad + ("  " + inside) == open + ("\n" + (pad + "  ")) + inside;
    var front := open + ("\n" + (pad + "  ")) + inside;
    assert front + "\n" + pad + close == front + ("\n" + pad) + close;
  }

  lemma GluedNext(first: string, pad: string, rest: string)
    ensures (first + ",") + "\n" + pad + rest == first + ("," + ("\n" + pad) + rest)
  {
  }

  lemma {:induction false} ItemsAreLines(v: Json, i: nat, depth: nat)
    requires v.Arr? && i < |v.items|
    ensures Items(v, i, Pretty(depth)) == Joined(ItemLines(v, i), Spaces(depth + 1))
    decreases v, 0, |v.items| - i
  {
    hide Joined, Lines, Spaces, Pad, Comma, Text, Items, ItemLines;
    PrettyIsLines(v.items[i], depth + 1);
    ItemsOn(v, i, depth);
    if i + 1 == |v.items| {
    } else {
      ItemsAreLines(v, i + 1, depth);
      CommaNext(Lines(v.items[i]), ItemLines(v, i + 1), depth + 1);
    }
  }

  lemma ItemsOn(v: Json, i: nat, depth: nat)
    requires v.Arr? && i < |v.items|
    ensures var first := Text(v.items[i], Pretty(depth + 1));
      Items(v, i, Pretty(depth)) == if i + 1 == |v.items| then first
        else first + ("," + ("\n" + Pad(depth + 1)) + Items(v, i + 1, Pretty(depth)))
    ensures var first := Lines(v.items[i]);
      ItemLines(v, i) == if i + 1 == |v.items| then first else Comma(first) + ItemLines(v, i + 1)
  {
    hide Text, Lines, Pad, Comma;
  }

  /** A comma, and then the next element on a line of its own. */
  lemma CommaNext(ls: seq<string>, more: seq<string>, depth: nat)
    requires ls != [] && more != []
    ensures var pad := Spaces(depth);
      Joined(ls, pad) + ("," + ("\n" + Pad(depth)) + Joined(more, pad)) == Joined(Comma(ls) + more, pad)
  {
    hide Joined, Comma, Spaces, Pad;
    var pad := Spaces(depth);
    PadIs(depth);
    JoinedComma(ls, pad);
    JoinedAppend(Comma(ls), more, pad);
    GluedNext(Joined(ls, pad), pad, Joined(more, pad));
  }

  lemma {:induction false} PairsAreLines(v: Json, i: nat, depth: nat)
    requires v.Obj? && i < |v.pairs|
    ensures Pairs(v, i, Pretty(depth)) == Joined(PairLines(v, i), Spaces(depth + 1))
    decreases v, 0, |v.pairs| - i
  {
    hide Joined, Lines, Spaces, Pad, Comma, Text, Quoted, Pairs, PairLines;
    var ls, key := Lines(v.pairs[i].1), Quoted(v.pairs[i].0) + ": ";
    PrettyIsLines(v.pairs[i].1, depth + 1);
    JoinedKeyed(ls, key, Spaces(depth + 1));
    PairsOn(v, i, depth);
    if i + 1 == |v.pairs| {
    } else {
      PairsAreLines(v, i + 1, depth);
      CommaNext(ls[0 := key + ls[0]], PairLines(v, i + 1), depth + 1);
    }
  }

  lemma PairsOn(v: Json, i: nat, depth: nat)
    requires v.Obj? && i < |v.pairs|
    ensures var first := Quoted(v.pairs[i].0) + ": " + Text(v.pairs[i].1, Pretty(depth + 1));
      Pairs(v, i, Pretty(depth)) == if i + 1 == |v.pairs| then first
        else first + ("," + ("\n" + Pad(depth + 1)) + Pairs(v, i + 1, Pretty(depth)))
    ensures var ls := Lines(v.pairs[i].1);
      var first := ls[0 := Quoted(v.pairs[i].0) + ": " + ls[0]];
      PairLines(v, i) == if i + 1 == |v.pairs| then first else Comma(first) + PairLines(v, i + 1)
  {
    hide Text, Lines, Pad, Comma, Quoted;
  }

  /** No line of an indented text is broken by what is in its strings. */
  lemma {:induction false} LinesAreWhole(v: Json)
    ensures forall k :: 0 <= k < |Lines(v)| ==> OneLine(Lines(v)[k])
    decreases v, 1
  {
    match v
    case Arr(items) => if items != [] { ItemLinesWhole(v, 0); }
    case Obj(pairs) => if pairs != [] { PairLinesWhole(v, 0); }
    case _ => CompactOneLine(v);
  }

  lemma {:induction false} ItemLinesWhole(v: Json, i: nat)
    requires v.Arr? && i < |v.items|
    ensures forall k :: 0 <= k < |ItemLines(v, i)| ==> OneLine(ItemLines(v, i)[k])
    decreases v, 0, |v.items| - i
  {
    LinesAreWhole(v.items[i]);
    if i + 1 == |v.items| {
    } else {
      ItemLinesWhole(v, i + 1);
    }
  }

  lemma {:induction false} PairLinesWhole(v: Json, i: nat)
    requires v.Obj? && i < |v.pairs|
    ensures forall k :: 0 <= k < |PairLines(v, i)| ==> OneLine(PairLines(v, i)[k])
    decreases v, 0, |v.pairs| - i
  {
    LinesAreWhole(v.pairs[i].1);
    EscapedOneLine(v.pairs[i].0);
    if i + 1 == |v.pairs| {
    } else {
      PairLinesWhole(v, i + 1);
    }
  }
}
