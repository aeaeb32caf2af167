/** The transfer ledger: one encoded line per verified file, recovery after a torn write,
    and the resume decision taken from what was recovered. */
module Ledger {
  import opened Common
  import opened Streams

  const MAX_LINE: nat := 0x1_0000
  const NEWLINE: Byte := 10

  datatype Error = TooLong | Malformed | BadDigest | BadTime | Poisoned | Io

  datatype Timestamp = Timestamp(seconds: int, nanoseconds: nat)

  datatype LocalIdentity = LocalIdentity(path: string, device: nat, inode: nat, size: nat,
                                         accessed: Timestamp, modified: Timestamp, changed: Timestamp)

  datatype Identity =
    | Local(local: LocalIdentity)
    | Image(path: string, image: LocalIdentity, offset: nat, uuid: string, inode: nat)

  datatype Entry = Entry(source: Identity, destination: Identity, bytes: nat, sha256: string, completedAt: Timestamp)

  /** How entries become bytes. Encoding may fail; what it produces holds no newline, and
      decoding the line gives the entry back. */
  datatype Codec = Codec(enc: Entry -> Option<Bytes>, dec: Bytes -> Option<Entry>)

  ghost predicate Faithful(c: Codec) {
    forall e :: c.enc(e).Some? ==>
      NEWLINE !in c.enc(e).value && c.dec(c.enc(e).value + [NEWLINE]) == Some(e)
  }

  // ---------------------------------------------------------------- what an entry must be

  predicate LowerHex(s: string) {
    forall i :: 0 <= i < |s| ==> '0' <= s[i] <= '9' || 'a' <= s[i] <= 'f'
  }

  function Times(i: Identity): seq<Timestamp> {
    var local := if i.Local? then i.local else i.image;
    [local.accessed, local.modified, local.changed]
  }

  function Validate(e: Entry): Option<Error> {
    if |e.sha256| != 64 || !LowerHex(e.sha256) then Some(BadDigest)
    else if exists t :: t in Times(e.source) + Times(e.destination) + [e.completedAt] && t.nanoseconds >= 1_000_000_000
    then Some(BadTime)
    else None
  }

  // ---------------------------------------------------------------- the file's form

  function Line(c: Codec, e: Entry): Bytes {
    if c.enc(e).Some? then c.enc(e).value + [NEWLINE] else []
  }

  /** The entries that `Append` lets through to the file. */
  predicate Recordable(c: Codec, e: Entry) {
    Validate(e).None? && c.enc(e).Some? && |Line(c, e)| <= MAX_LINE
  }

  /** Recordable are just the entries with a digest of 64 lowercase hexadecimal digits, with
      every time's nanoseconds below a thousand million, and that can be encoded to a line of
      no more than 65536 bytes, the newline included. */
  lemma RecordableMeans(c: Codec, e: Entry)
    ensures Validate(e).None? <==> GoodDigest(e.sha256) && GoodTimes(e)
    ensures Validate(e) == Some(BadDigest) <==> !GoodDigest(e.sha256)
    ensures Validate(e) == Some(BadTime) <==> GoodDigest(e.sha256) && !GoodTimes(e)
    ensures Recordable(c, e) <==>
      GoodDigest(e.sha256) && GoodTimes(e) && c.enc(e).Some? && |c.enc(e).value| < 65536
  {
    AllInRange(e);
    hide Times, GoodTimes;
    forall i | 0 <= i < |e.sha256|
      ensures e.sha256[i] in HEX <==> '0' <= e.sha256[i] <= '9' || 'a' <= e.sha256[i] <= 'f'
    {
      DigitIsHex(e.sha256[i]);
    }
  }

  const HEX := "0123456789abcdef"

  ghost predicate GoodDigest(s: string) {
    |s| == 64 && forall i :: 0 <= i < 64 ==> s[i] in HEX
  }

  ghost predicate InRange(t: Timestamp) {
    t.nanoseconds < 1_000_000_000
  }

  ghost predicate GoodLocal(i: LocalIdentity) {
    InRange(i.accessed) && InRange(i.modified) && InRange(i.changed)
  }

  ghost predicate GoodTimes(e: Entry) {
    && InRange(e.completedAt)
    && (match e.source case Local(l) => GoodLocal(l) case Image(_, l, _, _, _) => GoodLocal(l))
    && (match e.destination case Local(l) => GoodLocal(l) case Image(_, l, _, _, _) => GoodLocal(l))
  }

  lemma AllInRange(e: Entry)
    ensures GoodTimes(e) <==> forall t :: t in Times(e.source) + Times(e.destination) + [e.completedAt] ==> InRange(t)
  {
    var a := if e.source.Local? then e.source.local else e.source.image;
    var b := if e.destination.Local? then e.destination.local else e.destination.image;
    var all := [a.accessed, a.modified, a.changed, b.accessed, b.modified, b.changed, e.completedAt];
    assert Times(e.source) + Times(e.destination) + [e.completedAt] == all;
    assert GoodTimes(e) <==> GoodLocal(a) && GoodLocal(b) && InRange(e.completedAt);
    assert forall k :: 0 <= k < 7 ==> all[k] in all;
  }

  lemma DigitIsHex(c: char)
    ensures c in HEX <==> '0' <= c <= '9' || 'a' <= c <= 'f'
  {
    assert HEX[0] == '0' && HEX[1] == '1' && HEX[2] == '2' && HEX[3] == '3' && HEX[4] == '4' && HEX[5] == '5';
    assert HEX[6] == '6' && HEX[7] == '7' && HEX[8] == '8' && HEX[9] == '9' && HEX[10] == 'a' && HEX[11] == 'b';
    assert HEX[12] == 'c' && HEX[13] == 'd' && HEX[14] == 'e' && HEX[15] == 'f';
  }

  predicate AllRecordable(c: Codec, es: seq<Entry>) {
    forall i :: 0 <= i < |es| ==> Recordable(c, es[i])
  }

  function Lines(c: Codec, es: seq<Entry>): Bytes {
    if es == [] then [] else Line(c, es[0]) + Lines(c, es[1..])
  }

  /** What a write cut short can leave of a line. */
  predicate Torn(tail: Bytes) {
    NEWLINE !in tail && |tail| < MAX_LINE
  }

  lemma TornNothing()
    ensures Torn([])
  {
  }

  lemma {:induction false} LinesAppend(c: Codec, es: seq<Entry>, e: Entry)
    ensures Lines(c, es + [e]) == Lines(c, es) + Line(c, e)
  {
    if es == [] {
      assert [e][1..] == [];
    } else {
      assert (es + [e])[1..] == es[1..] + [e];
      LinesAppend(c, es[1..], e);
    }
  }

  // ---------------------------------------------------------------- reading it back

  datatype Parse = Rejected(error: Error) | Parsed(entries: seq<Entry>, validEnd: nat, torn: bool)

  /** The bytes up to and including the first newline, but no more than `limit` of them. */
  function Upto(f: Bytes, limit: nat): (line: Bytes)
    ensures |line| <= |f| && |line| <= limit && line == f[..|line|]
  {
    if f == [] || limit == 0 then []
    else if f[0] == NEWLINE then [NEWLINE]
    else [f[0]] + Upto(f[1..], limit - 1)
  }

  predicate Ended(line: Bytes) {
    line != [] && line[|line| - 1] == NEWLINE
  }

  function ParseFile(c: Codec, f: Bytes): Parse
    decreases |f|
  {
    var line := Upto(f, MAX_LINE + 1);
    if line == [] then Parsed([], 0, false)
    else if |line| > MAX_LINE then Rejected(TooLong)
    else if !Ended(line) then Parsed([], 0, true)
    else match c.dec(line)
      case None => Rejected(Malformed)
      case Some(e) =>
        if Validate(e).Some? then Rejected(Validate(e).value)
        else match ParseFile(c, f[|line|..])
          case Rejected(error) => Rejected(error)
          case Parsed(es, end, torn) => Parsed([e] + es, |line| + end, torn)
  }

  lemma {:induction false} UptoLine(body: Bytes, rest: Bytes, limit: nat)
    requires NEWLINE !in body && |body| < limit
    ensures Upto(body + [NEWLINE] + rest, limit) == body + [NEWLINE]
  {
    hide Upto;
    var f := body + [NEWLINE] + rest;
    UptoIs(f, limit);
    if body == [] {
    } else {
      assert f[0] == body[0] && f[1..] == body[1..] + [NEWLINE] + rest;
      UptoLine(body[1..], rest, limit - 1);
    }
  }

  lemma {:induction false} UptoCut(line: Bytes, rest: Bytes, limit: nat)
    requires NEWLINE !in line && |line| <= limit && (|line| < limit ==> rest == [])
    ensures Upto(line + rest, limit) == line
  {
    hide Upto;
    UptoIs(line + rest, limit);
    if line == [] {
      assert line + rest == rest;
    } else {
      assert (line + rest)[1..] == line[1..] + rest;
      UptoCut(line[1..], rest, limit - 1);
    }
  }

  lemma {:induction false} UptoTail(tail: Bytes, limit: nat)
    requires NEWLINE !in tail && |tail| <= limit
    ensures Upto(tail, limit) == tail
  {
    if tail == [] {
    } else {
      UptoTail(tail[1..], limit - 1);
    }
  }

  /** Recovery accepts exactly what appending can leave: any recordable lines, then any
      line cut short at any byte. It returns the whole lines and drops the rest. */
  lemma {:induction false} ParseLines(c: Codec, es: seq<Entry>, tail: Bytes)
    requires Faithful(c) && AllRecordable(c, es) && Torn(tail)
    ensures ParseFile(c, Lines(c, es) + tail) == Parsed(es, |Lines(c, es)|, tail != [])
  {
    hide Upto, Validate;
    var f := Lines(c, es) + tail;
    if es == [] {
      assert f == tail;
      UptoTail(tail, MAX_LINE + 1);
      assert !Ended(tail);
    } else {
      var body, rest := c.enc(es[0]).value, Lines(c, es[1..]) + tail;
      assert Recordable(c, es[0]);
      assert f == body + [NEWLINE] + rest;
      UptoLine(body, rest, MAX_LINE + 1);
      assert f[|body| + 1..] == rest;
      ParseLines(c, es[1..], tail);
      assert [es[0]] + es[1..] == es;
    }
  }

  /** The limits agree: the first line length that appending refuses, newline included, is
      the first that recovery refuses, whatever follows. */
  lemma LongLineRejected(c: Codec, body: Bytes, rest: Bytes)
    requires NEWLINE !in body && |body| + 1 > MAX_LINE
    ensures ParseFile(c, body + [NEWLINE] + rest) == Rejected(TooLong)
  {
    var f := body + [NEWLINE] + rest;
    if |body| == MAX_LINE {
      UptoLine(body, rest, MAX_LINE + 1);
    } else {
      var start := body[..MAX_LINE + 1];
      assert f == start + f[MAX_LINE + 1..];
      UptoCut(start, f[MAX_LINE + 1..], MAX_LINE + 1);
    }
  }

  /** A whole line: newline-terminated, short enough, and decoding to an acceptable entry. */
  ghost predicate IsLine(c: Codec, line: Bytes, e: Entry) {
    && Ended(line) && NEWLINE !in line[..|line| - 1] && |line| <= MAX_LINE
    && c.dec(line) == Some(e) && Validate(e).None?
  }

  function Joined(ls: seq<Bytes>): Bytes {
    if ls == [] then [] else ls[0] + Joined(ls[1..])
  }

  /** `f` is those lines, one per entry, and a rest that is empty exactly when not torn. */
  ghost predicate Splits(c: Codec, f: Bytes, ls: seq<Bytes>, es: seq<Entry>, tail: Bytes) {
    && f == Joined(ls) + tail && |ls| == |es|
    && (forall i :: 0 <= i < |ls| ==> IsLine(c, ls[i], es[i]))
    && NEWLINE !in tail && |tail| <= MAX_LINE
  }

  lemma {:induction false} UptoShape(f: Bytes, limit: nat)
    ensures var line := Upto(f, limit);
      && (forall i :: 0 <= i < |line| - 1 ==> line[i] != NEWLINE)
      && (!Ended(line) ==> |line| == Min(|f|, limit))
  {
    hide Upto;
    UptoIs(f, limit);
    if f == [] || limit == 0 || f[0] == NEWLINE {
    } else {
      UptoShape(f[1..], limit - 1);
      ShapeMore(f[0], Upto(f[1..], limit - 1));
    }
  }

  lemma UptoIs(f: Bytes, limit: nat)
    ensures f == [] || limit == 0 ==> Upto(f, limit) == []
    ensures f != [] && limit > 0 ==>
      Upto(f, limit) == if f[0] == NEWLINE then [NEWLINE] else [f[0]] + Upto(f[1..], limit - 1)
  {
  }

  lemma ShapeMore(b: Byte, rest: Bytes)
    requires b != NEWLINE && forall i :: 0 <= i < |rest| - 1 ==> rest[i] != NEWLINE
    ensures var line := [b] + rest;
      (forall i :: 0 <= i < |line| - 1 ==> line[i] != NEWLINE) && (Ended(rest) <==> Ended(line))
  {
    var line := [b] + rest;
    forall i | 0 <= i < |line| - 1 ensures line[i] != NEWLINE {
      if i > 0 { assert line[i] == rest[i - 1]; }
    }
  }

  /** What recovery accepts, whoever wrote it, is whole lines and an unterminated rest. */
  lemma {:induction false} ParsedSplits(c: Codec, f: Bytes) returns (ls: seq<Bytes>, tail: Bytes)
    requires ParseFile(c, f).Parsed?
    ensures var p := ParseFile(c, f);
      Splits(c, f, ls, p.entries, tail) && p.validEnd == |Joined(ls)| && (p.torn <==> tail != [])
    decreases |f|
  {
    hide Upto, Splits, Joined, ParseFile, IsLine;
    var line := Upto(f, MAX_LINE + 1);
    if line == [] || !Ended(line) {
      ls, tail := [], f;
      NothingParsed(c, f);
    } else {
      LineParsed(c, f);
      var rest;
      rest, tail := ParsedSplits(c, f[|line|..]);
      ls := [line] + rest;
      assert f == line + f[|line|..];
      SplitsMore(c, f[|line|..], rest, ParseFile(c, f[|line|..]).entries, tail, line, c.dec(line).value);
    }
  }

  lemma NothingParsed(c: Codec, f: Bytes)
    requires ParseFile(c, f).Parsed? && !Ended(Upto(f, MAX_LINE + 1))
    ensures ParseFile(c, f) == Parsed([], 0, f != []) && Splits(c, f, [], [], f) && Joined([]) == []
  {
    hide Upto;
    UptoShape(f, MAX_LINE + 1);
    assert f == Upto(f, MAX_LINE + 1);
    forall i | 0 <= i < |f| ensures f[i] != NEWLINE {}
  }

  /** What is accepted and begins with a whole line is that line and what follows. */
  lemma LineParsed(c: Codec, f: Bytes)
    requires ParseFile(c, f).Parsed? && Ended(Upto(f, MAX_LINE + 1))
    ensures var line := Upto(f, MAX_LINE + 1);
      && 0 < |line| <= |f| && c.dec(line).Some? && IsLine(c, line, c.dec(line).value)
    ensures var line := Upto(f, MAX_LINE + 1);
      var p, rest := ParseFile(c, f), ParseFile(c, f[|line|..]);
      rest.Parsed? && p == Parsed([c.dec(line).value] + rest.entries, |line| + rest.validEnd, rest.torn)
  {
    hide Upto, Validate;
    UptoShape(f, MAX_LINE + 1);
  }

  lemma SplitsMore(c: Codec, f: Bytes, ls: seq<Bytes>, es: seq<Entry>, tail: Bytes, line: Bytes, e: Entry)
    requires Splits(c, f, ls, es, tail) && IsLine(c, line, e)
    ensures Splits(c, line + f, [line] + ls, [e] + es, tail) && |Joined([line] + ls)| == |line| + |Joined(ls)|
  {
    assert ([line] + ls)[1..] == ls;
    assert line + f == Joined([line] + ls) + tail;
  }

  /** Conversely any whole lines and unterminated rest are accepted, as exactly those
      entries: the file's form alone decides what recovery returns. */
  lemma {:induction false} SplitsParse(c: Codec, f: Bytes, ls: seq<Bytes>, es: seq<Entry>, tail: Bytes)
    requires Splits(c, f, ls, es, tail)
    ensures ParseFile(c, f) == Parsed(es, |Joined(ls)|, tail != [])
  {
    if ls == [] {
      UptoTail(tail, MAX_LINE + 1);
      assert f == tail && (tail != [] ==> tail[|tail| - 1] in tail);
    } else {
      var line, body := ls[0], ls[0][..|ls[0]| - 1];
      assert IsLine(c, line, es[0]) && line == body + [NEWLINE];
      var rest := Joined(ls[1..]) + tail;
      assert f == body + [NEWLINE] + rest;
      UptoLine(body, rest, MAX_LINE + 1);
      assert f[|line|..] == rest;
      SplitsParse(c, rest, ls[1..], es[1..], tail);
      assert [es[0]] + es[1..] == es;
    }
  }

  // ---------------------------------------------------------------- histories

  /** What one handle appended: the entries it acknowledged, then at most one it did not. */
  datatype Session = Session(acked: seq<Entry>, failed: Option<Entry>)

  datatype Handle = Closed | Open(healthy: bool)

  /** The file and its handle. `past` is what the file has held since it was last synced,
      byte by byte, ending with what it holds now: a crash takes it back to any of these.
      `sessions` records what each handle was asked to append. */
  datatype State = State(past: seq<Bytes>, handle: Handle, sessions: seq<Session>)

  /** Which system call fails, if any: in recovery the read of the line after `lines` whole
      ones, the truncation, its sync or the final seek; in appending the write, after
      landing some of the line, or the sync. */
  datatype OpenFault = OpensFine | ReadFails(lines: nat) | TruncateFails | OpenSyncFails | SeekFails
  datatype AppendFault = AppendsFine | WriteFails(landed: nat) | SyncFails

  datatype Action =
    | DoOpen(openFault: OpenFault)
    | DoAppend(entry: Entry, verified: bool, fault: AppendFault)
    | DoClose
    | DoCrash(k: nat)

  function Now(s: State): Bytes {
    if s.past == [] then [] else s.past[|s.past| - 1]
  }

  predicate Enabled(s: State, a: Action) {
    match a
    case DoOpen(_) => s.handle.Closed?
    case DoAppend(_, _, _) => s.handle.Open?
    case DoClose => s.handle.Open?
    case DoCrash(k) => k < |s.past|
  }

  /** What opening makes of the file, and whether it answers with a handle. */
  function Recovered(c: Codec, s: State, fault: OpenFault): (seq<Bytes>, bool) {
    var past, f := s.past, Now(s);
    match ParseFile(c, f)
    case Rejected(_) => (past, false)
    case Parsed(es, end, torn) =>
      if fault.ReadFails? && fault.lines <= |es| then (past, false)
      else Trimmed(past, Take(f, end), torn, fault)
  }

  /** What cutting a torn line off makes of the file: `cut` is what is left of it. */
  function Trimmed(past: seq<Bytes>, cut: Bytes, torn: bool, fault: OpenFault): (seq<Bytes>, bool) {
    if torn && fault.TruncateFails? then (past, false)
    else if torn && fault.OpenSyncFails? then (past + [cut], false)
    else (if torn then [cut] else past, !fault.SeekFails?)
  }

  /** The contents as the first `n` bytes of a line land one by one. */
  function Landing(f: Bytes, line: Bytes, n: nat): seq<Bytes> {
    seq(n, (i: nat) => f + Take(line, i + 1))
  }

  lemma LandingIs(f: Bytes, line: Bytes, n: nat)
    requires n <= |line|
    ensures |Landing(f, line, n)| == n && forall i: nat :: i < n ==> Landing(f, line, n)[i] == f + line[..i + 1]
  {
  }

  function Take(s: Bytes, n: nat): Bytes {
    s[..Min(n, |s|)]
  }

  /** How appending answers: nothing recorded, recorded and synced, or an error. */
  function AppendAnswer(c: Codec, s: State, e: Entry, verified: bool, fault: AppendFault): Result<bool, Error> {
    if !verified then Ok(false)
    else if s.handle != Open(true) then Err(Poisoned)
    else if Validate(e).Some? then Err(Validate(e).value)
    else if c.enc(e).None? then Err(Malformed)
    else if |Line(c, e)| > MAX_LINE then Err(TooLong)
    else if fault.AppendsFine? then Ok(true)
    else Err(Io)
  }

  /** Whether an append gets as far as writing. */
  predicate Writes(c: Codec, s: State, e: Entry, verified: bool) {
    verified && s.handle == Open(true) && s.sessions != [] && Recordable(c, e)
  }

  function Appended(c: Codec, s: State, e: Entry, verified: bool, fault: AppendFault): State {
    if !Writes(c, s, e, verified) then s
    else
      var line := Line(c, e);
      if fault.AppendsFine? then State([Now(s) + line], s.handle, Acking(s.sessions, e))
      else
        var n := if fault.WriteFails? then Min(fault.landed, |line|) else |line|;
        State(s.past + Landing(Now(s), line, n), Open(false), Marked(s.sessions, e))
  }

  /** The handle in use acknowledges an entry, or fails on one. */
  function Acking(ss: seq<Session>, e: Entry): seq<Session>
    requires ss != []
  {
    var l := |ss| - 1;
    ss[l := ss[l].(acked := ss[l].acked + [e])]
  }

  function Marked(ss: seq<Session>, e: Entry): seq<Session>
    requires ss != []
  {
    ss[|ss| - 1 := ss[|ss| - 1].(failed := Some(e))]
  }

  lemma LandingLast(past: seq<Bytes>, f: Bytes, line: Bytes, n: nat)
    requires n <= |line| && past != [] && past[|past| - 1] == f
    ensures var all := past + Landing(f, line, n); all != [] && all[|all| - 1] == f + line[..n]
  {
    if n == 0 { assert f + line[..n] == f && Landing(f, line, n) == []; }
  }

  function Apply(c: Codec, s: State, a: Action): State {
    match a
    case DoOpen(fault) =>
      var (past, ok) := Recovered(c, s, fault);
      if ok then State(past, Open(true), s.sessions + [Session([], None)]) else s.(past := past)
    case DoAppend(e, verified, fault) => Appended(c, s, e, verified, fault)
    case DoClose => s.(handle := Closed)
    case DoCrash(k) => s.(past := [if k < |s.past| then s.past[k] else Now(s)], handle := Closed)
  }

  /** An append is acknowledged exactly when the entry was verified and may be recorded, the
      handle is sound and no call fails; the file then ends with its line, durably. A failed
      call poisons the handle; any other answer changes nothing. */
  lemma AppendMeans(c: Codec, s: State, e: Entry, verified: bool, fault: AppendFault)
    requires s.sessions != []
    ensures var answer, s' := AppendAnswer(c, s, e, verified, fault), Appended(c, s, e, verified, fault);
      && (answer == Ok(true) <==> verified && s.handle == Open(true) && Recordable(c, e) && fault.AppendsFine?)
      && (answer == Ok(true) ==> s'.past == [Now(s) + (c.enc(e).value + [NEWLINE])] && s'.handle == Open(true))
      && (answer == Err(Io) ==> s'.handle == Open(false) && s.past <= s'.past && Now(s) <= Now(s'))
      && (answer != Ok(true) && answer != Err(Io) ==> s' == s)
  {
    if Writes(c, s, e, verified) && !fault.AppendsFine? {
      var line := Line(c, e);
      var n := if fault.WriteFails? then Min(fault.landed, |line|) else |line|;
      LandingIs(Now(s), line, n);
    }
  }

  // ---------------------------------------------------------------- durability

  /** The entries are those of each handle in turn: everything it acknowledged, in order,
      and then perhaps the one it tried and failed to append. */
  ghost predicate Composed(ss: seq<Session>, es: seq<Entry>) {
    if ss == [] then es == []
    else exists k: nat :: k <= |es| && Composed(ss[..|ss| - 1], es[..k]) && OfSession(ss[|ss| - 1], es[k..])
  }

  predicate OfSession(l: Session, es: seq<Entry>) {
    es == l.acked || (l.failed.Some? && es == l.acked + [l.failed.value])
  }

  ghost predicate Holds(c: Codec, f: Bytes, ss: seq<Session>, es: seq<Entry>, tail: Bytes) {
    f == Lines(c, es) + tail && AllRecordable(c, es) && Torn(tail) && Composed(ss, es)
  }

  ghost predicate Sound(c: Codec, f: Bytes, ss: seq<Session>) {
    exists es, tail :: Holds(c, f, ss, es, tail)
  }

  ghost predicate Whole(c: Codec, f: Bytes, ss: seq<Session>) {
    exists es :: Holds(c, f, ss, es, [])
  }

  ghost predicate Inv(c: Codec, s: State) {
    && s.past != []
    && (forall k :: 0 <= k < |s.past| ==> Sound(c, s.past[k], s.sessions))
    && (s.handle.Open? ==> s.sessions != [])
    && (s.handle == Open(true) ==> s.sessions[|s.sessions| - 1].failed.None? && Whole(c, Now(s), s.sessions))
  }

  /** A new handle leaves what is there composed as it was. */
  lemma ComposedNewSession(ss: seq<Session>, es: seq<Entry>)
    requires Composed(ss, es)
    ensures Composed(ss + [Session([], None)], es)
  {
    var ss' := ss + [Session([], None)];
    assert ss'[..|ss'| - 1] == ss && es[..|es|] == es && es[|es|..] == [];
  }

  /** A session whose appends were all acknowledged still accounts for what it accounted for
      when it gains the entries `more`. */
  lemma ComposedLast(ss: seq<Session>, l: Session, es: seq<Entry>, more: seq<Entry>)
    requires ss != [] && Composed(ss, es)
    requires ss[|ss| - 1].failed.None? && OfSession(l, ss[|ss| - 1].acked + more)
    ensures Composed(ss[|ss| - 1 := l], es + more)
  {
    hide Composed;
    var n := |ss| - 1;
    var k := Uncompose(ss, es);
    ComposedSplit(ss[n := l], es + more, k, ss[..n], es[..k], l, es[k..] + more);
  }

  /** Where the last session's entries begin. */
  lemma Uncompose(ss: seq<Session>, es: seq<Entry>) returns (k: nat)
    requires ss != [] && Composed(ss, es)
    ensures k <= |es| && Composed(ss[..|ss| - 1], es[..k]) && OfSession(ss[|ss| - 1], es[k..])
  {
    k :| k <= |es| && Composed(ss[..|ss| - 1], es[..k]) && OfSession(ss[|ss| - 1], es[k..]);
  }

  lemma ComposedSplit(ss: seq<Session>, es: seq<Entry>, k: nat, before: seq<Session>, first: seq<Entry>, l: Session,
                      rest: seq<Entry>)
    requires ss == before + [l] && es == first + rest && k == |first|
    requires Composed(before, first) && OfSession(l, rest)
    ensures Composed(ss, es)
  {
    assert ss[..|ss| - 1] == before && es[..k] == first && es[k..] == rest;
  }

  lemma RecoveredSound(c: Codec, s: State, fault: OpenFault)
    requires Faithful(c) && Inv(c, s)
    ensures var (past, ok) := Recovered(c, s, fault);
      && past != [] && (forall k :: 0 <= k < |past| ==> Sound(c, past[k], s.sessions))
      && (ok ==> Whole(c, past[|past| - 1], s.sessions))
  {
    hide AllRecordable, Composed, ParseFile, Lines, Torn;
    var f := Now(s);
    assert Sound(c, f, s.sessions);
    var es, tail :| Holds(c, f, s.sessions, es, tail);
    ParseLines(c, es, tail);
    TornNothing();
    var cut := f[..|Lines(c, es)|];
    assert cut == Lines(c, es) + [];
    assert Holds(c, cut, s.sessions, es, []);
    assert tail == [] ==> cut == f;
  }

  lemma SoundNewSession(c: Codec, f: Bytes, ss: seq<Session>)
    requires Sound(c, f, ss)
    ensures Sound(c, f, ss + [Session([], None)])
    ensures Whole(c, f, ss) ==> Whole(c, f, ss + [Session([], None)])
  {
    var ss' := ss + [Session([], None)];
    var es, tail :| Holds(c, f, ss, es, tail);
    ComposedNewSession(ss, es);
    assert Holds(c, f, ss', es, tail);
    if Whole(c, f, ss) {
      var es' :| Holds(c, f, ss, es', []);
      ComposedNewSession(ss, es');
      assert Holds(c, f, ss', es', []);
    }
  }

  lemma OpenKeeps(c: Codec, s: State, fault: OpenFault)
    requires Faithful(c) && Inv(c, s) && s.handle.Closed?
    ensures Inv(c, Apply(c, s, DoOpen(fault)))
  {
    hide Recovered, Holds, Sound, Whole;
    var (past, ok) := Recovered(c, s, fault);
    RecoveredSound(c, s, fault);
    forall k | 0 <= k < |past| && ok ensures Sound(c, past[k], s.sessions + [Session([], None)]) {
      SoundNewSession(c, past[k], s.sessions);
    }
    if ok { SoundNewSession(c, past[|past| - 1], s.sessions); }
  }

  /** A line landed whole adds its entry to the last session; one cut short adds a tail. */
  lemma LandingHolds(c: Codec, f: Bytes, ss: seq<Session>, l: Session, e: Entry, n: nat)
    requires Faithful(c) && Whole(c, f, ss) && ss != [] && Recordable(c, e) && n <= |Line(c, e)|
    requires ss[|ss| - 1].failed.None?
    requires n == |Line(c, e)| ==> OfSession(l, ss[|ss| - 1].acked + [e])
    requires n < |Line(c, e)| ==> OfSession(l, ss[|ss| - 1].acked)
    ensures Sound(c, f + Line(c, e)[..n], ss[|ss| - 1 := l])
    ensures n == |Line(c, e)| ==> Whole(c, f + Line(c, e), ss[|ss| - 1 := l])
  {
    hide Composed, Lines;
    var line, ss' := Line(c, e), ss[|ss| - 1 := l];
    var es :| Holds(c, f, ss, es, []);
    if n == |line| {
      ComposedLast(ss, l, es, [e]);
      LinesAppend(c, es, e);
      assert line[..n] == line;
      assert Holds(c, f + line, ss', es + [e], []);
    } else {
      assert ss[|ss| - 1].acked + [] == ss[|ss| - 1].acked;
      ComposedLast(ss, l, es, []);
      assert es + [] == es;
      assert Torn(line[..n]);
      assert Holds(c, f + line[..n], ss', es, line[..n]);
    }
  }

  lemma AppendKeeps(c: Codec, s: State, e: Entry, verified: bool, fault: AppendFault)
    requires Faithful(c) && Inv(c, s) && s.handle.Open?
    ensures Inv(c, Appended(c, s, e, verified, fault))
  {
    if Writes(c, s, e, verified) {
      if fault.AppendsFine? {
        AppendedHolds(c, s, e, verified, fault);
      } else {
        FailedKeeps(c, s, e, verified, fault);
      }
    }
  }

  lemma AppendedHolds(c: Codec, s: State, e: Entry, verified: bool, fault: AppendFault)
    requires Faithful(c) && Inv(c, s) && s.handle.Open? && Writes(c, s, e, verified) && fault.AppendsFine?
    ensures Inv(c, Appended(c, s, e, verified, fault))
  {
    var ss, last := s.sessions, |s.sessions| - 1;
    var line := Line(c, e);
    LandingHolds(c, Now(s), ss, ss[last].(acked := ss[last].acked + [e]), e, |line|);
    assert line[..|line|] == line;
  }

  /** A failed append leaves part of its line, and an entry that may or may not be there. */
  lemma FailedKeeps(c: Codec, s: State, e: Entry, verified: bool, fault: AppendFault)
    requires Faithful(c) && Inv(c, s) && s.handle.Open? && Writes(c, s, e, verified) && !fault.AppendsFine?
    ensures Inv(c, Appended(c, s, e, verified, fault))
  {
    hide Sound, Landing;
    var ss, last := s.sessions, |s.sessions| - 1;
    var line, f := Line(c, e), Now(s);
    var l := ss[last].(failed := Some(e));
    assert ss[last].acked + [] == ss[last].acked;
    var n := Min(if fault.WriteFails? then fault.landed else |line|, |line|);
    forall k | 0 <= k < |s.past| ensures Sound(c, s.past[k], ss[last := l]) {
      SoundStill(c, s.past[k], ss, l);
    }
    LandingIs(f, line, n);
    forall i | 0 <= i < n ensures Sound(c, Landing(f, line, n)[i], ss[last := l]) {
      LandingHolds(c, f, ss, l, e, i + 1);
    }
  }

  lemma SoundStill(c: Codec, f: Bytes, ss: seq<Session>, l: Session)
    requires ss != [] && Sound(c, f, ss) && l.acked == ss[|ss| - 1].acked && ss[|ss| - 1].failed.None?
    ensures Sound(c, f, ss[|ss| - 1 := l])
  {
    var es, tail :| Holds(c, f, ss, es, tail);
    assert l.acked + [] == l.acked && es + [] == es;
    ComposedLast(ss, l, es, []);
    assert Holds(c, f, ss[|ss| - 1 := l], es, tail);
  }

  lemma StepKeeps(c: Codec, s: State, a: Action)
    requires Faithful(c) && Inv(c, s) && Enabled(s, a)
    ensures Inv(c, Apply(c, s, a))
  {
    match a
    case DoOpen(fault) => OpenKeeps(c, s, fault);
    case DoAppend(e, verified, fault) => AppendKeeps(c, s, e, verified, fault);
    case DoClose =>
    case DoCrash(k) =>
  }

  const FRESH: State := State([[]], Closed, [])

  ghost predicate IsRun(c: Codec, states: seq<State>, actions: seq<Action>) {
    && |states| == |actions| + 1 && states[0] == FRESH
    && forall k :: 0 <= k < |actions| ==>
         && Enabled(states[k], actions[k])
         && states[k + 1] == Apply(c, states[k], actions[k])
  }

  lemma {:induction false} RunKeeps(c: Codec, states: seq<State>, actions: seq<Action>, n: nat)
    requires Faithful(c) && IsRun(c, states, actions) && n < |states|
    ensures Inv(c, states[n])
  {
    if n == 0 {
      assert Holds(c, [], [], [], []);
    } else {
      RunKeeps(c, states, actions, n - 1);
      StepKeeps(c, states[n - 1], actions[n - 1]);
    }
  }

  /** The entries that the first `n` actions acknowledged, read off the answers alone. */
  ghost function Acknowledged(c: Codec, states: seq<State>, actions: seq<Action>, n: nat): seq<Entry>
    requires n <= |actions| <= |states|
  {
    if n == 0 then []
    else Acknowledged(c, states, actions, n - 1) + Acknowledges(c, states[n - 1], actions[n - 1])
  }

  /** Handles that the first `n` actions opened. */
  ghost function Handles(states: seq<State>, actions: seq<Action>, n: nat): nat
    requires n <= |actions| && |states| == |actions| + 1
  {
    if n == 0 then 0
    else Handles(states, actions, n - 1) + if actions[n - 1].DoOpen? && states[n].handle.Open? then 1 else 0
  }

  function AckedOf(ss: seq<Session>): seq<Entry> {
    if ss == [] then [] else AckedOf(ss[..|ss| - 1]) + ss[|ss| - 1].acked
  }

  lemma AckedLast(ss: seq<Session>, l: Session)
    requires ss != []
    ensures AckedOf(ss[|ss| - 1 := l]) == AckedOf(ss[..|ss| - 1]) + l.acked
  {
    assert ss[|ss| - 1 := l][..|ss| - 1] == ss[..|ss| - 1];
  }

  lemma AppendRecords(c: Codec, s: State, e: Entry, verified: bool, fault: AppendFault)
    requires s.past != [] && s.sessions != []
    ensures AckedOf(Appended(c, s, e, verified, fault).sessions) ==
      AckedOf(s.sessions) + if AppendAnswer(c, s, e, verified, fault) == Ok(true) then [e] else []
    ensures |Appended(c, s, e, verified, fault).sessions| == |s.sessions|
  {
    var l := |s.sessions| - 1;
    AckedLast(s.sessions, s.sessions[l].(acked := s.sessions[l].acked + [e]));
    AckedLast(s.sessions, s.sessions[l].(failed := Some(e)));
  }

  /** The entry that an action acknowledges, if it does. */
  ghost function Acknowledges(c: Codec, s: State, a: Action): seq<Entry> {
    if a.DoAppend? && AppendAnswer(c, s, a.entry, a.verified, a.fault) == Ok(true) then [a.entry] else []
  }

  lemma StepRecords(c: Codec, s: State, a: Action)
    requires Inv(c, s) && Enabled(s, a)
    ensures var s' := Apply(c, s, a);
      && AckedOf(s'.sessions) == AckedOf(s.sessions) + Acknowledges(c, s, a)
      && |s'.sessions| == |s.sessions| + if a.DoOpen? && s'.handle.Open? then 1 else 0
  {
    hide Recovered, Appended, AppendAnswer;
    match a
    case DoOpen(fault) =>
      var ss := s.sessions + [Session([], None)];
      assert ss[..|ss| - 1] == s.sessions;
    case DoAppend(e, verified, fault) => AppendRecords(c, s, e, verified, fault);
    case _ =>
  }

  /** The recorded sessions are the answers given: one per handle, acknowledging the same. */
  lemma {:induction false} SessionsRecord(c: Codec, states: seq<State>, actions: seq<Action>, n: nat)
    requires Faithful(c) && IsRun(c, states, actions) && n <= |actions|
    ensures AckedOf(states[n].sessions) == Acknowledged(c, states, actions, n)
    ensures |states[n].sessions| == Handles(states, actions, n)
  {
    if n > 0 {
      hide Inv, Apply, Enabled, AckedOf, Acknowledges, Faithful;
      SessionsRecord(c, states, actions, n - 1);
      RunKeeps(c, states, actions, n - 1);
      StepRecords(c, states[n - 1], actions[n - 1]);
    } else {
      assert AckedOf([]) == [];
    }
  }

  /** `part` is what is left of `whole` after taking out at most `out` elements. */
  ghost predicate Among<T>(part: seq<T>, whole: seq<T>, out: nat)
    decreases whole
  {
    if whole == [] then part == []
    else
      var p, w := |part| - 1, |whole| - 1;
      || (part != [] && part[p] == whole[w] && Among(part[..p], whole[..w], out))
      || (out > 0 && Among(part, whole[..w], out - 1))
  }

  lemma {:induction false} AmongAppend<T>(part: seq<T>, whole: seq<T>, out: nat, more: seq<T>)
    requires Among(part, whole, out)
    ensures Among(part + more, whole + more, out)
  {
    if more == [] {
      assert part + more == part && whole + more == whole;
    } else {
      var m := |more| - 1;
      AmongAppend(part, whole, out, more[..m]);
      assert (part + more)[..|part| + m] == part + more[..m] && (whole + more)[..|whole| + m] == whole + more[..m];
    }
  }

  lemma {:induction false} AmongMore<T>(part: seq<T>, whole: seq<T>, out: nat, out': nat)
    requires Among(part, whole, out) && out <= out'
    ensures Among(part, whole, out')
    decreases whole
  {
    if whole == [] {
    } else {
      var p, w := |part| - 1, |whole| - 1;
      if part != [] && part[p] == whole[w] && Among(part[..p], whole[..w], out) {
        AmongMore(part[..p], whole[..w], out, out');
      } else {
        AmongMore(part, whole[..w], out - 1, out' - 1);
      }
    }
  }

  /** Entries composed of sessions are the acknowledged ones, in order, with at most one
      more for each session. */
  lemma {:induction false} ComposedAmong(ss: seq<Session>, es: seq<Entry>)
    requires Composed(ss, es)
    ensures Among(AckedOf(ss), es, |ss|)
  {
    hide Composed, OfSession, Among, AckedOf;
    if ss == [] {
      NothingAmong(es);
    } else {
      var n := |ss| - 1;
      var k := Uncompose(ss, es);
      var first, rest := es[..k], es[k..];
      ComposedAmong(ss[..n], first);
      SessionAmong(AckedOf(ss[..n]), first, n, ss[n], rest);
      AckedUnfold(ss);
      assert es == first + rest;
    }
  }

  lemma NothingAmong(es: seq<Entry>)
    requires Composed([], es)
    ensures Among(AckedOf([]), es, 0)
  {
  }

  lemma AckedUnfold(ss: seq<Session>)
    requires ss != []
    ensures AckedOf(ss) == AckedOf(ss[..|ss| - 1]) + ss[|ss| - 1].acked
  {
  }

  lemma SessionAmong(acked: seq<Entry>, es: seq<Entry>, n: nat, l: Session, more: seq<Entry>)
    requires Among(acked, es, n) && OfSession(l, more)
    ensures Among(acked + l.acked, es + more, n + 1)
  {
    AmongAppend(acked, es, n, l.acked);
    AmongMore(acked + l.acked, es + l.acked, n, n + 1);
    if more != l.acked {
      assert es + more == (es + l.acked) + [l.failed.value];
      AmongOut(acked + l.acked, es + l.acked, n, l.failed.value);
    }
  }

  lemma AmongOut<T>(part: seq<T>, whole: seq<T>, out: nat, x: T)
    requires Among(part, whole, out)
    ensures Among(part, whole + [x], out + 1)
  {
    assert (whole + [x])[..|whole|] == whole;
  }

  /** Durability: after any history, with a crash back to any moment since the last sync,
      recovery accepts the file and returns every acknowledged entry in order, with at most
      one unacknowledged entry for each handle there has been. */
  lemma NothingAcknowledgedIsLost(c: Codec, states: seq<State>, actions: seq<Action>, n: nat, k: nat)
    requires Faithful(c) && IsRun(c, states, actions) && n < |states| && k < |states[n].past|
    ensures var p := ParseFile(c, states[n].past[k]);
      p.Parsed? && Among(Acknowledged(c, states, actions, n), p.entries, Handles(states, actions, n))
  {
    RunKeeps(c, states, actions, n);
    SessionsRecord(c, states, actions, n);
    var es, tail :| Holds(c, states[n].past[k], states[n].sessions, es, tail);
    ParseLines(c, es, tail);
    ComposedAmong(states[n].sessions, es);
  }

  /** After any history the file can be opened: it is refused only for a call that fails on the
      way, which is to read a line, to cut off a torn one durably, or to seek to the end. */
  lemma OpensWhen(c: Codec, states: seq<State>, actions: seq<Action>, n: nat)
    requires Faithful(c) && IsRun(c, states, actions) && n < |actions| && actions[n].DoOpen?
    ensures var p := ParseFile(c, Now(states[n]));
      p.Parsed? && (states[n + 1].handle.Open? <==> !Bites(actions[n].openFault, p))
  {
    hide ParseFile, Inv;
    RunKeeps(c, states, actions, n);
    WholeLines(c, states[n], actions[n].openFault);
  }

  /** The fault is met: that many lines are read, or a torn line is there to be cut off. */
  ghost predicate Bites(fault: OpenFault, p: Parse)
    requires p.Parsed?
  {
    match fault
    case OpensFine => false
    case ReadFails(lines) => lines <= |p.entries|
    case TruncateFails => p.torn
    case OpenSyncFails => p.torn
    case SeekFails => true
  }

  /** An open that answers with a handle leaves only whole lines, those it returned, and the
      cut durable where it cut off a torn one. */
  lemma OpenLeavesWholeLines(c: Codec, states: seq<State>, actions: seq<Action>, n: nat)
    requires Faithful(c) && IsRun(c, states, actions) && n < |actions|
    requires actions[n].DoOpen? && states[n + 1].handle.Open?
    ensures ParseFile(c, Now(states[n])).Parsed?
    ensures Now(states[n + 1]) == Lines(c, ParseFile(c, Now(states[n])).entries)
    ensures ParseFile(c, Now(states[n])).torn ==> states[n + 1].past == [Now(states[n + 1])]
  {
    RunKeeps(c, states, actions, n);
    WholeLines(c, states[n], actions[n].openFault);
  }

  lemma WholeLines(c: Codec, s: State, fault: OpenFault)
    requires Faithful(c) && Inv(c, s) && s.handle.Closed?
    ensures ParseFile(c, Now(s)).Parsed?
    ensures Recovered(c, s, fault).1 ==>
      Now(Apply(c, s, DoOpen(fault))) == Lines(c, ParseFile(c, Now(s)).entries)
    ensures Recovered(c, s, fault).1 && ParseFile(c, Now(s)).torn ==>
      Apply(c, s, DoOpen(fault)).past == [Now(Apply(c, s, DoOpen(fault)))]
    ensures Recovered(c, s, fault).1 <==> !Bites(fault, ParseFile(c, Now(s)))
  {
    hide Composed, AllRecordable, Torn, ParseFile, Lines;
    assert Sound(c, Now(s), s.sessions);
    var es, tail :| Holds(c, Now(s), s.sessions, es, tail);
    ParseLines(c, es, tail);
    assert Now(s)[..|Lines(c, es)|] == Lines(c, es);
    assert tail == [] ==> Now(s) == Lines(c, es);
  }

  // ---------------------------------------------------------------- the handle

  datatype Read = Read(entries: seq<Entry>, tornTail: bool)

  /** The ledger file with its handle. */
  class Manifest {
    const codec: Codec
    var file: Bytes
    var handle: Handle
    ghost var past: seq<Bytes>
    ghost var sessions: seq<Session>

    constructor (codec: Codec)
      requires Faithful(codec)
      ensures this.codec == codec && Valid() && Value() == FRESH
    {
      this.codec, file, handle, past, sessions := codec, [], Closed, [[]], [];
      new;
      assert Holds(codec, [], [], [], []);
    }

    ghost function Value(): State
      reads this
    {
      State(past, handle, sessions)
    }

    ghost predicate Valid()
      reads this
    {
      Faithful(codec) && Inv(codec, Value()) && file == Now(Value())
    }

    /** Read the line at `pos`, as a bounded read up to a newline does. */
    method ReadLine(pos: nat) returns (line: Bytes)
      requires pos <= |file|
      ensures line == Upto(file[pos..], MAX_LINE + 1)
    {
      line := [];
      ghost var f := file[pos..];
      while pos + |line| < |file| && |line| < MAX_LINE + 1
        invariant pos + |line| <= |file| && |line| <= MAX_LINE + 1
        invariant NEWLINE !in line && line == f[..|line|]
        decreases MAX_LINE + 1 - |line|
      {
        var b := file[pos + |line|];
        if b == NEWLINE {
          assert f == line + [NEWLINE] + f[|line| + 1..];
          UptoLine(line, f[|line| + 1..], MAX_LINE + 1);
          return line + [NEWLINE];
        }
        line := line + [b];
      }
      UptoCut(line, f[|line|..], MAX_LINE + 1);
      assert f == line + f[|line|..];
    }

    /** Read every whole line back, up to the end or a torn line. */
    method Scan(fault: OpenFault) returns (r: Result<Parse, Error>)
      ensures match ParseFile(codec, file)
        case Rejected(error) => r == Err(error) || (fault.ReadFails? && r == Err(Io))
        case Parsed(es, _, _) =>
          if fault.ReadFails? && fault.lines <= |es| then r == Err(Io) else r == Ok(ParseFile(codec, file))
    {
      hide Upto;
      var entries, pos := [], 0;
      assert file[0..] == file;
      while true
        invariant pos <= |file| && ParsesOn(codec, file, entries, pos)
        invariant fault.ReadFails? ==> |entries| <= fault.lines
        decreases |file| - pos
      {
        if fault == ReadFails(|entries|) {
          return Err(Io);
        }
        var line := ReadLine(pos);
        if line == [] {
          assert entries + [] == entries;
          break;
        }
        if |line| > MAX_LINE {
          return Err(TooLong);
        }
        if line[|line| - 1] != NEWLINE {
          assert entries + [] == entries;
          return Ok(Parsed(entries, pos, true));
        }
        var entry := codec.dec(line);
        if entry.None? {
          return Err(Malformed);
        }
        var invalid := Validate(entry.value);
        if invalid.Some? {
          return Err(invalid.value);
        }
        ParsesOnStep(codec, file, entries, pos, line, entry.value);
        pos := pos + |line|;
        entries := entries + [entry.value];
      }
      r := Ok(Parsed(entries, pos, false));
    }

    /** Recover the file, cutting off a torn line; a handle comes back only when all of
        that worked. */
    method Open(fault: OpenFault) returns (r: Result<Read, Error>)
      requires Valid() && handle.Closed?
      modifies this
      ensures Valid() && Value() == Apply(codec, old(Value()), DoOpen(fault))
      ensures r.Ok? <==> handle.Open?
      ensures var p := ParseFile(codec, old(file)); p.Parsed? && (r.Ok? <==> !Bites(fault, p))
      ensures r.Err? ==> r.error == Io
      ensures r.Ok? ==> ParseFile(codec, old(file)) == Parsed(r.value.entries, |file|, r.value.tornTail)
    {
      OpenKeeps(codec, Value(), fault);
      OpenMeans(codec, Value(), fault);
      WholeLines(codec, Value(), fault);
      ParseEnd(codec, file);
      hide Inv, ParseFile, Trimmed, Apply, Recovered, Faithful;
      var read := Scan(fault);
      if read.Err? {
        return Err(read.error);
      }
      var Parsed(entries, validEnd, torn) := read.value;
      var started := Start(validEnd, torn, fault);
      r := if started then Ok(Read(entries, torn)) else Err(Io);
    }

    /** Start a session on the file, once a torn line is cut off. */
    method Start(validEnd: nat, torn: bool, fault: OpenFault) returns (ok: bool)
      requires validEnd <= |file| && past != [] && file == Now(Value()) && (!torn ==> validEnd == |file|)
        && handle.Closed?
      modifies this
      ensures file == Now(Value()) && handle == (if ok then Handle.Open(true) else Closed)
      ensures (past, ok) == Trimmed(old(past), Take(old(file), validEnd), torn, fault)
      ensures sessions == if ok then old(sessions) + [Session([], None)] else old(sessions)
      ensures ok ==> file == Take(old(file), validEnd)
    {
      ok := Trim(validEnd, torn, fault);
      if ok {
        handle := Handle.Open(true);
        sessions := sessions + [Session([], None)];
      }
    }

    /** Cut off a torn line, durably, and go to the end of the file. */
    method Trim(validEnd: nat, torn: bool, fault: OpenFault) returns (ok: bool)
      requires validEnd <= |file| && past != [] && file == past[|past| - 1] && (!torn ==> validEnd == |file|)
      modifies this`file, this`past
      ensures (past, ok) == Trimmed(old(past), old(file)[..validEnd], torn, fault)
      ensures past != [] && file == past[|past| - 1] && (ok ==> file == old(file)[..validEnd])
    {
      if torn {
        if fault.TruncateFails? {
          return false;
        }
        file := file[..validEnd];
        past := past + [file];
        if fault.OpenSyncFails? {
          return false;
        }
        past := [file];
      }
      ok := !fault.SeekFails?;
    }

    /** Record one verified entry: written, then synced, then acknowledged. */
    method Append(entry: Entry, verified: bool, fault: AppendFault) returns (r: Result<bool, Error>)
      requires Valid() && handle.Open?
      modifies this
      ensures Valid() && Value() == Apply(codec, old(Value()), DoAppend(entry, verified, fault))
      ensures r == AppendAnswer(codec, old(Value()), entry, verified, fault)
    {
      AppendKeeps(codec, Value(), entry, verified, fault);
      hide Inv, Appended;
      if !verified {
        return Ok(false);
      }
      if !handle.healthy {
        return Err(Poisoned);
      }
      var invalid := Validate(entry);
      if invalid.Some? {
        return Err(invalid.value);
      }
      var encoded := codec.enc(entry);
      if encoded.None? {
        return Err(Malformed);
      }
      var line := encoded.value + [NEWLINE];
      if |line| > MAX_LINE {
        return Err(TooLong);
      }
      r := Write(line, entry, fault);
    }

    /** The part of an append that touches the file. */
    method Write(line: Bytes, entry: Entry, fault: AppendFault) returns (r: Result<bool, Error>)
      requires past != [] && file == Now(Value()) && line == Line(codec, entry) && Writes(codec, Value(), entry, true)
      modifies this
      ensures Value() == Appended(codec, old(Value()), entry, true, fault) && file == Now(Value())
      ensures r == if fault.AppendsFine? then Ok(true) else Err(Io)
    {
      hide Lines, Acking, Marked, Landing, Recordable, Line;
      handle := Handle.Open(false);
      var landed := if fault.WriteFails? then Min(fault.landed, |line|) else |line|;
      assert landed == |line| ==> line[..landed] == line;
      LandingLast(past, file, line, landed);
      past := past + Landing(file, line, landed);
      file := file + line[..landed];
      if !fault.AppendsFine? {
        sessions := Marked(sessions, entry);
        return Err(Io);
      }
      past := [file];
      sessions := Acking(sessions, entry);
      handle := Handle.Open(true);
      r := Ok(true);
    }
  }

  lemma OpenMeans(c: Codec, s: State, fault: OpenFault)
    requires Inv(c, s)
    ensures s.past != []
    ensures var p, s' := ParseFile(c, Now(s)), Apply(c, s, DoOpen(fault));
      if p.Rejected? || (fault.ReadFails? && fault.lines <= |p.entries|) then s' == s
      else
        var (past, ok) := Trimmed(s.past, Take(Now(s), p.validEnd), p.torn, fault);
        s' == if ok then State(past, Open(true), s.sessions + [Session([], None)]) else s.(past := past)
  {
  }

  /** The whole lines before `pos` parse to `entries`, and what the rest parses to follows. */
  ghost predicate ParsesOn(c: Codec, f: Bytes, entries: seq<Entry>, pos: nat) {
    pos <= |f| &&
    match ParseFile(c, f[pos..])
    case Rejected(error) => ParseFile(c, f) == Rejected(error)
    case Parsed(es, end, torn) => ParseFile(c, f) == Parsed(entries + es, pos + end, torn)
  }

  lemma {:induction false} ParseEnd(c: Codec, f: Bytes)
    ensures var p := ParseFile(c, f);
      p.Parsed? ==> p.validEnd <= |f| && (!p.torn ==> p.validEnd == |f|)
    decreases |f|
  {
    var line := Upto(f, MAX_LINE + 1);
    UptoShape(f, MAX_LINE + 1);
    if line == [] {
    } else {
      ParseEnd(c, f[|line|..]);
    }
  }

  lemma ParsesOnStep(c: Codec, f: Bytes, entries: seq<Entry>, pos: nat, line: Bytes, e: Entry)
    requires ParsesOn(c, f, entries, pos) && line == Upto(f[pos..], MAX_LINE + 1)
    requires 0 < |line| <= MAX_LINE && Ended(line) && c.dec(line) == Some(e) && Validate(e).None?
    ensures ParsesOn(c, f, entries + [e], pos + |line|)
  {
    assert f[pos..][|line|..] == f[pos + |line|..];
    match ParseFile(c, f[pos + |line|..])
    case Rejected(_) =>
    case Parsed(es, end, torn) => assert entries + ([e] + es) == entries + [e] + es;
  }

  // ---------------------------------------------------------------- resuming

  datatype Decision = Copy | Skipped(completedAt: Timestamp)

  predicate SameLocation(a: Identity, b: Identity) {
    match (a, b)
    case (Local(a), Local(b)) => a.path == b.path
    case (Image(a, ai, ao, _, _), Image(b, bi, bo, _, _)) => a == b && ai.path == bi.path && ao == bo
    case _ => false
  }

  predicate SameLocal(a: LocalIdentity, b: LocalIdentity) {
    && a.path == b.path && a.device == b.device && a.inode == b.inode && a.size == b.size
    && a.modified == b.modified && a.changed == b.changed
  }

  predicate SameIdentity(a: Identity, b: Identity) {
    match (a, b)
    case (Local(a), Local(b)) => SameLocal(a, b)
    case (Image(a, ai, ao, au, an), Image(b, bi, bo, bu, bn)) =>
      a == b && SameLocal(ai, bi) && ao == bo && au == bu && an == bn
    case _ => false
  }

  /** An identity but for its access time, which reading a file can change. */
  ghost function Erase(i: Identity): Identity {
    var never := Timestamp(0, 0);
    match i
    case Local(l) => Local(l.(accessed := never))
    case Image(path, l, offset, uuid, inode) => Image(path, l.(accessed := never), offset, uuid, inode)
  }

  datatype Place = OnHost(path: string) | InImage(path: string, image: string, offset: nat)

  /** Where the object of an identity is. */
  ghost function PlaceOf(i: Identity): Place {
    match i
    case Local(l) => OnHost(l.path)
    case Image(path, l, offset, _, _) => InImage(path, l.path, offset)
  }

  /** Two identities are the same exactly when they differ in no more than access times, and in
      the same place exactly when their places are equal; the first implies the second. */
  lemma IdentityIs(a: Identity, b: Identity)
    ensures SameIdentity(a, b) <==> Erase(a) == Erase(b)
    ensures SameLocation(a, b) <==> PlaceOf(a) == PlaceOf(b)
    ensures Erase(a) == Erase(b) ==> PlaceOf(a) == PlaceOf(b)
  {
  }

  predicate SizeMatches(i: Identity, bytes: nat) {
    i.Local? ==> i.local.size == bytes
  }

  /** The last evidence recorded for a destination, from whatever source. */
  function Latest(entries: seq<Entry>, destination: Identity): Option<Entry> {
    if entries == [] then None
    else
      var last := entries[|entries| - 1];
      if SameLocation(last.destination, destination) then Some(last)
      else Latest(entries[..|entries| - 1], destination)
  }

  /** The evidence concerns these very objects, as they are now. */
  predicate StillAbout(e: Entry, source: Identity, destination: Identity) {
    && SameIdentity(e.source, source) && SameIdentity(e.destination, destination)
    && SizeMatches(source, e.bytes) && SizeMatches(destination, e.bytes)
  }

  /** Look back for the last entry about a place. */
  method LatestEntry(entries: seq<Entry>, destination: Identity) returns (r: Option<Entry>)
    requires forall i :: 0 <= i < |entries| ==> entries[i].bytes <= U64_MAX
    ensures r == Latest(entries, destination) && (r.Some? ==> r.value.bytes <= U64_MAX)
  {
    hide SameLocation;
    var n := |entries|;
    assert entries[..n] == entries;
    while n > 0 && !SameLocation(entries[n - 1].destination, destination)
      invariant n <= |entries| && Latest(entries, destination) == Latest(entries[..n], destination)
    {
      assert entries[..n][..n - 1] == entries[..n - 1];
      n := n - 1;
    }
    if n == 0 {
      return None;
    }
    r := Some(entries[n - 1]);
    assert entries[n - 1] == entries[..n][n - 1];
  }

  /** The evidence records the source and the destination just as they are now, but for access
      times, and as many bytes as each of them that is a file of the host now has. */
  ghost predicate Current(e: Entry, source: Identity, destination: Identity) {
    && Erase(e.source) == Erase(source) && Erase(e.destination) == Erase(destination)
    && (source.Local? ==> source.local.size == e.bytes) && (destination.Local? ==> destination.local.size == e.bytes)
  }

  lemma StillAboutMeans(e: Entry, source: Identity, destination: Identity)
    ensures StillAbout(e, source, destination) <==> Current(e, source, destination)
  {
    hide SameIdentity, Erase;
    IdentityIs(e.source, source);
    IdentityIs(e.destination, destination);
  }

  /** Skipping a file takes evidence that is the latest for its destination, of the very
      source and destination there are now, and a source that reads to its end with the
      recorded length and digest. A read error is an error unless the source had already
      outgrown the evidence. */
  method CheckResume(entries: seq<Entry>, source: Identity, destination: Identity,
                     replies: seq<Reply>, hash: Bytes -> string) returns (r: Result<Decision, Error>)
    requires forall i :: 0 <= i < |entries| ==> entries[i].bytes <= U64_MAX
    ensures var latest, read := Latest(entries, destination), Deliver(replies, CHUNK);
      && (r.Ok? && r.value.Skipped? <==>
            && latest.Some? && Validate(latest.value).None? && Current(latest.value, source, destination)
            && read.clean && |read.bytes| == latest.value.bytes && hash(read.bytes) == latest.value.sha256)
      && (r.Ok? && r.value.Skipped? ==> r.value.completedAt == latest.value.completedAt)
      && (r.Err? <==>
            && latest.Some?
            && (Validate(latest.value).Some?
                || (Current(latest.value, source, destination) && !read.clean
                    && |read.bytes| <= latest.value.bytes)))
      && (r.Err? ==> r.error == if Validate(latest.value).Some? then Validate(latest.value).value else Io)
  {
    hide Validate, StillAbout, Current;
    var latest := LatestEntry(entries, destination);
    hide Latest, Deliver, Ahead;
    if latest.None? {
      return Ok(Copy);
    }
    var entry := latest.value;
    var invalid := Validate(entry);
    if invalid.Some? {
      return Err(invalid.value);
    }
    StillAboutMeans(entry, source, destination);
    if !StillAbout(entry, source, destination) {
      return Ok(Copy);
    }
    var digested: Bytes, i := [], 0;
    ghost var read := Deliver(replies, CHUNK);
    AheadStart(replies, CHUNK);
    while i < |replies|
      invariant i <= |replies| && |digested| <= entry.bytes
      invariant Ahead(read, digested, replies, i, CHUNK)
    {
      AheadStep(read, digested, replies, i, CHUNK);
      match replies[i]
      case Interrupted => i := i + 1;
      case Failed => return Err(Io);
      case Data(bytes) =>
        if bytes == [] {
          break;
        }
        if |bytes| > CHUNK {
          return Err(Io);
        }
        AheadBound(read, digested + bytes, replies, i + 1, CHUNK);
        if |digested| + |bytes| > U64_MAX || |digested| + |bytes| > entry.bytes {
          return Ok(Copy);
        }
        digested := digested + bytes;
        i := i + 1;
    }
    if i == |replies| { AheadEnd(read, digested, replies, CHUNK); }
    if |digested| != entry.bytes || hash(digested) != entry.sha256 {
      return Ok(Copy);
    }
    r := Ok(Skipped(entry.completedAt));
  }

  ghost predicate IsLatest(entries: seq<Entry>, p: Place, i: nat) {
    && i < |entries| && PlaceOf(entries[i].destination) == p
    && forall j :: i < j < |entries| ==> PlaceOf(entries[j].destination) != p
  }

  /** The evidence is the same whichever identity of a place asks. */
  lemma {:induction false} LatestOfPlace(entries: seq<Entry>, destination: Identity, d: Identity)
    requires PlaceOf(destination) == PlaceOf(d)
    ensures Latest(entries, d) == Latest(entries, destination)
  {
    if entries == [] {
    } else {
      var n := |entries| - 1;
      IdentityIs(entries[n].destination, destination);
      IdentityIs(entries[n].destination, d);
      LatestOfPlace(entries[..n], destination, d);
    }
  }

  /** It is the last entry recorded for the place: nothing recorded later is for it. */
  lemma {:induction false} LatestIs(entries: seq<Entry>, d: Identity)
    ensures Latest(entries, d).None? <==>
      forall i :: 0 <= i < |entries| ==> PlaceOf(entries[i].destination) != PlaceOf(d)
    ensures Latest(entries, d).Some? ==>
      exists i: nat :: IsLatest(entries, PlaceOf(d), i) && entries[i] == Latest(entries, d).value
  {
    hide SameLocation, PlaceOf;
    if entries == [] {
    } else {
      var n := |entries| - 1;
      LatestIs(entries[..n], d);
      IdentityIs(entries[n].destination, d);
      forall i | 0 <= i < n ensures entries[i] == entries[..n][i] {}
      if SameLocation(entries[n].destination, d) {
        assert IsLatest(entries, PlaceOf(d), n) && entries[n] == Latest(entries, d).value;
      } else if Latest(entries[..n], d).Some? {
        var i: nat :| IsLatest(entries[..n], PlaceOf(d), i) && entries[..n][i] == Latest(entries[..n], d).value;
        assert IsLatest(entries, PlaceOf(d), i) && entries[i] == Latest(entries, d).value;
      }
    }
  }
}
