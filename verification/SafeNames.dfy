/** Names that a source tree may give to entries of the destination. */
module SafeNames {
  import opened Common
  import opened TreeReport

  predicate SafeName(name: string) {
    name != "" && name != "." && name != ".." && forall i :: 0 <= i < |name| ==> name[i] !in {'\0', '/', '\\'}
  }

  /** The pieces of a path as a system may take it apart: at either separator, and up to a
      terminating zero. */
  ghost function Pieces(s: string): (ps: seq<string>)
    ensures ps != []
  {
    if s == "" || s[0] == '\0' then [""]
    else
      var rest := Pieces(s[1..]);
      if s[0] == '/' || s[0] == '\\' then [""] + rest else [[s[0]] + rest[0]] + rest[1..]
  }

  /** Where a piece leads from a directory. */
  ghost function Go(from: Path, piece: string): Path {
    if piece == "" || piece == "." then from
    else if piece == ".." then if from == [] then [] else from[..|from| - 1]
    else from + [piece]
  }

  ghost function Follow(from: Path, pieces: seq<string>): Path
    decreases |pieces|
  {
    if pieces == [] then from else Follow(Go(from, pieces[0]), pieces[1..])
  }

  ghost predicate Whole(piece: string) {
    forall i :: 0 <= i < |piece| ==> piece[i] !in {'\0', '/', '\\'}
  }

  lemma {:induction false} PiecesAreWhole(s: string)
    ensures forall k :: 0 <= k < |Pieces(s)| ==> Whole(Pieces(s)[k])
    ensures Whole(s) ==> Pieces(s) == [s]
  {
    if s == "" {
    } else {
      PiecesAreWhole(s[1..]);
      assert s == [s[0]] + s[1..];
      var rest := Pieces(s[1..]);
      assert forall i :: 0 <= i < |s| - 1 ==> s[1..][i] == s[i + 1];
      assert Whole(rest[0]);
    }
  }

  /** What lies past where they start from is made of the pieces themselves. */
  lemma {:induction false} FollowedPieces(from: Path, pieces: seq<string>, fixed: nat)
    requires forall k :: 0 <= k < |pieces| ==> Whole(pieces[k])
    requires forall i :: fixed <= i < |from| ==> Whole(from[i])
    ensures forall i :: fixed <= i < |Follow(from, pieces)| ==> Whole(Follow(from, pieces)[i])
    decreases |pieces|
  {
    hide Whole;
    if pieces == [] {
    } else {
      FollowedPieces(Go(from, pieces[0]), pieces[1..], fixed);
    }
  }

  /** A name is safe exactly when, followed from whatever directory, it leads to the entry of
      that name right there: not back up, not further down, not to another name. */
  lemma SafeNameLeadsThere(from: Path, name: string)
    ensures SafeName(name) <==> Follow(from, Pieces(name)) == from + [name]
  {
    PiecesAreWhole(name);
    FollowedPieces(from, Pieces(name), |from|);
    if Whole(name) {
      assert Follow(from, [name]) == Go(from, name) by { assert [name][1..] == []; }
    } else {
      assert (from + [name])[|from|] == name;
    }
  }
}
