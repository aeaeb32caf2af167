/** The hidden names that exports stage under, and when a directory takes one of them for the
    destination's own name. */
module StagingNames {
  import opened Common

  const STEM: nat := 100
  const ATTEMPTS: nat := 1000

  function Suffix(pid: nat, n: nat): string {
    "." + Decimal(pid) + "-" + Decimal(n) + ".partial"
  }

  /** The part of a name that its staging names keep, and the part they lose. */
  function Stem(name: string): string {
    name[..Min(STEM, |name|)]
  }

  function Rest(name: string): string {
    name[Min(STEM, |name|)..]
  }

  function StagingName(name: string, pid: nat, n: nat): string {
    "." + Stem(name) + Suffix(pid, n)
  }

  function Dots(n: nat): string {
    seq(n, _ => '.')
  }

  // ---------------------------------------------------------------- how a directory tells names apart

  /** What each character counts as. A full stop counts as itself; any other may count as
      another, several or none, as where case is folded. */
  type Folding = fold: char -> string | fold('.') == "." witness c => [c]

  function Fold(fold: Folding, name: string): string {
    if name == "" then "" else fold(name[0]) + Fold(fold, name[1..])
  }

  lemma {:induction false} FoldAppend(fold: Folding, a: string, b: string)
    ensures Fold(fold, a + b) == Fold(fold, a) + Fold(fold, b)
  {
    if a == "" {
      assert a + b == b;
    } else {
      assert (a + b)[1..] == a[1..] + b;
      FoldAppend(fold, a[1..], b);
    }
  }

  lemma {:induction false} FoldDots(fold: Folding, n: nat)
    ensures Fold(fold, Dots(n)) == Dots(n)
  {
    if n == 0 {
    } else {
      assert Dots(n)[1..] == Dots(n - 1);
      FoldDots(fold, n - 1);
    }
  }

  // ---------------------------------------------------------------- when a staging name collides

  /** The kept part of the name counts as nothing but full stops, and the rest as one more
      with the suffix after it. */
  predicate Collides(fold: Folding, name: string, pid: nat, n: nat) {
    && (forall i :: 0 <= i < |Fold(fold, Stem(name))| ==> Fold(fold, Stem(name))[i] == '.')
    && Fold(fold, Rest(name)) == "." + Fold(fold, Suffix(pid, n))
  }

  lemma {:induction false} AllDots(s: string, k: nat)
    requires k < |s| && s[0] == '.' && forall i :: 0 <= i < k ==> s[i + 1] == s[i]
    ensures forall i :: 0 <= i <= k ==> s[i] == '.'
  {
    if k == 0 {
    } else {
      AllDots(s, k - 1);
      assert s[k - 1 + 1] == s[k - 1];
    }
  }

  /** A full stop before a text and between it and another make the same only where the first
      text is all full stops. */
  lemma DotMoves(kept: string, rest: string, suffix: string)
    ensures "." + kept + suffix == kept + rest <==>
      (forall i :: 0 <= i < |kept| ==> kept[i] == '.') && rest == "." + suffix
  {
    var s, name := "." + kept + suffix, kept + rest;
    if s == name {
      assert forall i :: 0 <= i < |kept| ==> s[i + 1] == kept[i] == name[i];
      AllDots(s, |kept|);
      assert rest == s[|kept|..] && s[|kept|] == '.' && s[|kept| + 1..] == suffix;
    }
    if (forall i :: 0 <= i < |kept| ==> kept[i] == '.') && rest == "." + suffix {
      assert "." + kept == kept + ".";
      assert s == kept + "." + suffix;
    }
  }

  /** A directory takes a staging name for the destination's own exactly when the name
      collides with it. */
  lemma StagingIsName(fold: Folding, name: string, pid: nat, n: nat)
    ensures Fold(fold, StagingName(name, pid, n)) == Fold(fold, name) <==> Collides(fold, name, pid, n)
  {
    hide Suffix;
    FoldAppend(fold, "." + Stem(name), Suffix(pid, n));
    FoldAppend(fold, ".", Stem(name));
    assert Fold(fold, ".") == "." by { assert "."[1..] == ""; }
    assert name == Stem(name) + Rest(name);
    FoldAppend(fold, Stem(name), Rest(name));
    DotMoves(Fold(fold, Stem(name)), Fold(fold, Rest(name)), Fold(fold, Suffix(pid, n)));
  }

  /** No staging name is the destination's own. */
  ghost predicate Apart(fold: Folding, name: string, pid: nat) {
    forall n: nat :: n < ATTEMPTS ==> Fold(fold, StagingName(name, pid, n)) != Fold(fold, name)
  }

  lemma ApartIs(fold: Folding, name: string, pid: nat)
    ensures Apart(fold, name, pid) <==> !exists n: nat :: n < ATTEMPTS && Collides(fold, name, pid, n)
  {
    forall n: nat ensures Fold(fold, StagingName(name, pid, n)) == Fold(fold, name) <==> Collides(fold, name, pid, n) {
      StagingIsName(fold, name, pid, n);
    }
  }

  // ---------------------------------------------------------------- the names that do

  /** One full stop more than the stem keeps, and a suffix. */
  function Dotted(pid: nat, n: nat): string {
    Dots(STEM + 1) + Suffix(pid, n)
  }

  /** Nothing counts as nothing, and only a full stop as one. */
  ghost predicate Plain(fold: Folding) {
    forall c :: c != '.' ==> fold(c) != "" && '.' !in fold(c)
  }

  lemma {:induction false} DotsBefore(fold: Folding, name: string, m: nat)
    requires Plain(fold) && m <= |Fold(fold, name)| && forall i :: 0 <= i < m ==> Fold(fold, name)[i] == '.'
    ensures m <= |name| && name[..m] == Dots(m)
  {
    if m == 0 {
    } else {
      assert fold(name[0])[0] == Fold(fold, name)[0] == '.';
      assert '.' in fold(name[0]);
      var rest := Fold(fold, name[1..]);
      assert Fold(fold, name) == "." + rest;
      forall i | 0 <= i < m - 1 ensures rest[i] == '.' {
        assert rest[i] == Fold(fold, name)[i + 1];
      }
      DotsBefore(fold, name[1..], m - 1);
      assert name[..m] == [name[0]] + name[1..][..m - 1];
    }
  }

  /** On such a directory the colliding names are those it takes for one full stop more than
      the stem keeps, followed by the suffix. */
  lemma CollidesMeans(fold: Folding, name: string, pid: nat, n: nat)
    requires Plain(fold)
    ensures Collides(fold, name, pid, n) <==> Fold(fold, name) == Fold(fold, Dotted(pid, n))
  {
    hide Suffix, Fold, Collides, Plain;
    FoldDotted(fold, pid, n);
    if Collides(fold, name, pid, n) { CollidingIsDotted(fold, name, pid, n); }
    if Fold(fold, name) == Fold(fold, Dotted(pid, n)) { DottedIsColliding(fold, name, pid, n); }
  }

  lemma FoldDotted(fold: Folding, pid: nat, n: nat)
    ensures Fold(fold, Dotted(pid, n)) == Dots(STEM) + ("." + Fold(fold, Suffix(pid, n)))
  {
    hide Suffix, Fold;
    FoldAppend(fold, Dots(STEM + 1), Suffix(pid, n));
    FoldDots(fold, STEM + 1);
    assert Dots(STEM + 1) == Dots(STEM) + ".";
  }

  lemma CollidingIsDotted(fold: Folding, name: string, pid: nat, n: nat)
    requires Plain(fold) && Collides(fold, name, pid, n)
    ensures Fold(fold, name) == Dots(STEM) + ("." + Fold(fold, Suffix(pid, n)))
  {
    hide Suffix, Fold, Plain;
    assert |name| > STEM by { NothingFolds(fold, Rest(name)); }
    FoldLonger(fold, Stem(name));
    DotsBefore(fold, Stem(name), STEM);
    assert Stem(name) == Stem(name)[..STEM];
    FoldDots(fold, STEM);
    assert name == Stem(name) + Rest(name);
    FoldAppend(fold, Stem(name), Rest(name));
  }

  lemma NothingFolds(fold: Folding, name: string)
    ensures name == "" ==> Fold(fold, name) == ""
  {
  }

  lemma DottedIsColliding(fold: Folding, name: string, pid: nat, n: nat)
    requires Plain(fold) && Fold(fold, name) == Fold(fold, Dotted(pid, n))
    ensures Collides(fold, name, pid, n)
  {
    hide Suffix, Fold;
    FoldDotted(fold, pid, n);
    var tail := "." + Fold(fold, Suffix(pid, n));
    DotsBefore(fold, name, STEM + 1);
    assert Stem(name) == name[..STEM + 1][..STEM] == Dots(STEM);
    FoldDots(fold, STEM);
    assert name == Stem(name) + Rest(name);
    FoldAppend(fold, Stem(name), Rest(name));
    var rest := Fold(fold, Rest(name));
    assert rest == (Dots(STEM) + rest)[STEM..] == (Dots(STEM) + tail)[STEM..] == tail;
  }

  lemma {:induction false} FoldLonger(fold: Folding, name: string)
    requires Plain(fold)
    ensures |Fold(fold, name)| >= |name|
  {
    if name == "" {
    } else {
      assert |fold(name[0])| > 0;
      FoldLonger(fold, name[1..]);
    }
  }

  const EXACTLY: Folding := c => [c]

  lemma {:induction false} FoldExactly(name: string)
    ensures Fold(EXACTLY, name) == name
  {
    if name == "" {
    } else {
      FoldExactly(name[1..]);
    }
  }

  /** Where names are told apart exactly, that is one name for each attempt. */
  lemma CollidesExactly(name: string, pid: nat, n: nat)
    ensures Collides(EXACTLY, name, pid, n) <==> name == Dotted(pid, n)
  {
    hide Suffix, Fold;
    CollidesMeans(EXACTLY, name, pid, n);
    FoldExactly(name);
    FoldExactly(Dotted(pid, n));
  }

  /** That name collides whatever the directory folds. */

  lemma DottedCollides(fold: Folding, pid: nat, n: nat)
    ensures Collides(fold, Dotted(pid, n), pid, n)
  {
    hide Suffix;
    var name := Dotted(pid, n);
    assert Stem(name) == Dots(STEM) && Rest(name) == "." + Suffix(pid, n);
    FoldDots(fold, STEM);
    FoldAppend(fold, ".", Suffix(pid, n));
    assert "."[1..] == "";
  }

  /** The same name with a capital: no staging name is equal to it, and a directory that folds
      the capital takes the first for it. */
  function Capital(pid: nat): string {
    Dots(STEM + 1) + "." + Decimal(pid) + "-" + Decimal(0) + ".Partial"
  }

  lemma CapitalCollides(fold: Folding, pid: nat)
    requires fold('P') == fold('p')
    ensures Apart(EXACTLY, Capital(pid), pid) && Collides(fold, Capital(pid), pid, 0)
  {
    hide Decimal, Fold;
    var name, most := Capital(pid), "." + Decimal(pid) + "-" + Decimal(0) + ".";
    assert name[|name| - 7] == 'P';
    forall n: nat ensures !Collides(EXACTLY, name, pid, n) {
      hide Collides;
      CollidesExactly(name, pid, n);
      assert Dotted(pid, n)[|Dotted(pid, n)| - 7] == 'p';
    }
    ApartIs(EXACTLY, name, pid);
    assert Stem(name) == Dots(STEM) && Rest(name) == "." + (most + "P" + "artial");
    assert Suffix(pid, 0) == most + "p" + "artial";
    FoldDots(fold, STEM);
    FoldAppend(fold, ".", most + "P" + "artial");
    FoldOne(fold, '.');
    FoldCase(fold, most, "artial");
  }

  lemma FoldOne(fold: Folding, c: char)
    ensures Fold(fold, [c]) == fold(c)
  {
    assert [c][1..] == "";
  }

  lemma FoldCase(fold: Folding, a: string, b: string)
    requires fold('P') == fold('p')
    ensures Fold(fold, a + "P" + b) == Fold(fold, a + "p" + b)
  {
    hide Fold;
    FoldAppend(fold, a + "P", b);
    FoldAppend(fold, a + "p", b);
    FoldAppend(fold, a, "P");
    FoldAppend(fold, a, "p");
    FoldOne(fold, 'P');
    FoldOne(fold, 'p');
  }
}
