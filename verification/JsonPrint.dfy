/** The JSON printer, on one line and indented, read back by a reader for the grammar of
    RFC 8259: values and white space (section 2), numbers (section 6), strings (section 7). */
module JsonPrint {
  import opened Common

  datatype Json =
    | Null
    | Bool(b: bool)
    | Int(n: int)
    | UInt(u: nat)
    | Str(s: string)
    | Arr(items: seq<Json>)
    | Obj(pairs: seq<(string, Json)>)

  // ---------------------------------------------------------------- the text printed

  function HexDigit(n: nat): char
    requires n < 16
  {
    if n < 10 then '0' + n as char else 'a' + (n - 10) as char
  }

  /** One character of a string as it is written between the quotes. */
  function Escape(c: char): string {
    if c == '"' then "\\\""
    else if c == '\\' then "\\\\"
    else if c == '\n' then "\\n"
    else if c == '\r' then "\\r"
    else if c == '\t' then "\\t"
    else if c as int < 0x20 || c as int == 0x7f then "\\u00" + [HexDigit(c as int / 16), HexDigit(c as int % 16)]
    else [c]
  }

  function Escaped(s: string): string {
    if s == "" then "" else Escape(s[0]) + Escaped(s[1..])
  }

  function Quoted(s: string): string {
    "\"" + Escaped(s) + "\""
  }

  function Signed(n: int): string {
    if n < 0 then "-" + Decimal(-n) else Decimal(n)
  }

  /** White space between the parts of an array or object. */
  datatype Style = Compact | Pretty(depth: nat)

  function Pad(depth: nat): string {
    if depth == 0 then "" else Pad(depth - 1) + "  "
  }

  function Inner(style: Style): Style {
    if style.Pretty? then Pretty(style.depth + 1) else Compact
  }

  function Opening(style: Style): string {
    if style.Pretty? then "\n" + Pad(style.depth + 1) else ""
  }

  function Between(style: Style): string {
    if style.Pretty? then "\n" + Pad(style.depth + 1) else " "
  }

  function Closing(style: Style): string {
    if style.Pretty? then "\n" + Pad(style.depth) else ""
  }

  function Text(v: Json, style: Style): string
    decreases v, 1
  {
    match v
    case Null => "null"
    case Bool(b) => if b then "true" else "false"
    case Int(n) => Signed(n)
    case UInt(u) => Decimal(u)
    case Str(s) => Quoted(s)
    case Arr(items) =>
      if items == [] then "[]" else "[" + Opening(style) + Items(v, 0, style) + Closing(style) + "]"
    case Obj(pairs) =>
      if pairs == [] then "{}" else "{" + Opening(style) + Pairs(v, 0, style) + Closing(style) + "}"
  }

  /** The elements from the `i`-th on, separated. */
  function Items(v: Json, i: nat, style: Style): string
    requires v.Arr? && i < |v.items|
    decreases v, 0, |v.items| - i
  {
    Text(v.items[i], Inner(style)) + if i + 1 == |v.items| then "" else "," + Between(style) + Items(v, i + 1, style)
  }

  function Pair(v: Json, i: nat, style: Style): string
    requires v.Obj? && i < |v.pairs|
    decreases v, 0, |v.pairs| - i, 0
  {
    Quoted(v.pairs[i].0) + ": " + Text(v.pairs[i].1, Inner(style))
  }

  function Pairs(v: Json, i: nat, style: Style): string
    requires v.Obj? && i < |v.pairs|
    decreases v, 0, |v.pairs| - i, 1
  {
    Pair(v, i, style) + if i + 1 == |v.pairs| then "" else "," + Between(style) + Pairs(v, i + 1, style)
  }

  // ---------------------------------------------------------------- the reader

  /** What a text stands for. A number is `mantissa` times ten to the `exponent`. */
  datatype Value =
    | VNull
    | VBool(b: bool)
    | VNumber(mantissa: int, exponent: int)
    | VString(s: string)
    | VArray(items: seq<Value>)
    | VObject(pairs: seq<(string, Value)>)

  /** Something read from the front of a text, and the text after it. */
  type Got<T> = Option<(T, string)>

  predicate IsSpace(c: char) {
    c == ' ' || c == '\t' || c == '\n' || c == '\r'
  }

  function SkipSpace(t: string): (r: string)
    ensures |r| <= |t|
  {
    if t != "" && IsSpace(t[0]) then SkipSpace(t[1..]) else t
  }

  predicate StartsWith(t: string, c: char) {
    t != "" && t[0] == c
  }

  predicate IsDigit(c: char) {
    '0' <= c <= '9'
  }

  /** Digits, as many as there are: the number so far with them appended, and how many. */
  function ReadDigits(t: string, sofar: nat): (r: (nat, nat, string))
    ensures |r.2| + r.1 == |t|
  {
    if t != "" && IsDigit(t[0]) then
      var (n, count, rest) := ReadDigits(t[1..], 10 * sofar + (t[0] - '0') as int);
      (n, count + 1, rest)
    else (sofar, 0, t)
  }

  /** The fraction, if there is one: the mantissa with it, and its digits. */
  function ReadFraction(t: string, sofar: nat): (r: Option<(nat, nat, string)>)
    ensures r.Some? ==> |r.value.2| <= |t|
  {
    if !StartsWith(t, '.') then Some((sofar, 0, t))
    else
      var (n, count, rest) := ReadDigits(t[1..], sofar);
      if count == 0 then None else Some((n, count, rest))
  }

  function ReadExponent(t: string): (r: Got<int>)
    ensures r.Some? ==> |r.value.1| <= |t|
  {
    if !StartsWith(t, 'e') && !StartsWith(t, 'E') then Some((0, t))
    else
      var signed := StartsWith(t[1..], '+') || StartsWith(t[1..], '-');
      var (n, count, rest) := ReadDigits(if signed then t[2..] else t[1..], 0);
      var e: int := if StartsWith(t[1..], '-') then -(n as int) else n;
      if count == 0 then None else Some((e, rest))
  }

  /** Section 6: an integer part without needless zeros, then a fraction and an exponent. */
  function ReadNumber(t: string): (r: Got<Value>)
    ensures r.Some? ==> |r.value.1| < |t|
  {
    var minus := StartsWith(t, '-');
    var digits := if minus then t[1..] else t;
    var (n, count, rest) := ReadDigits(digits, 0);
    if count == 0 || (digits[0] == '0' && count > 1) then None
    else match ReadFraction(rest, n)
      case None => None
      case Some((mantissa, places, rest)) =>
        match ReadExponent(rest)
        case None => None
        case Some((e, rest)) =>
          var m: int := if minus then -(mantissa as int) else mantissa;
          Some((VNumber(m, e - places), rest))
  }

  function HexValue(c: char): (v: Option<nat>)
    ensures v.Some? ==> v.value < 16
  {
    if '0' <= c <= '9' then Some((c - '0') as int)
    else if 'a' <= c <= 'f' then Some(10 + (c - 'a') as int)
    else if 'A' <= c <= 'F' then Some(10 + (c - 'A') as int)
    else None
  }

  function HexByte(a: nat, b: nat): (n: nat)
    requires a < 16 && b < 16
    ensures n < 256
  {
    a * 16 + b
  }

  /** Four hexadecimal digits. */
  function ReadHex(t: string): (r: Got<nat>)
    ensures r.Some? ==> |r.value.1| < |t| && r.value.0 < 0x1_0000
  {
    if |t| < 4 then None
    else
      var a, b, c, d := HexValue(t[0]), HexValue(t[1]), HexValue(t[2]), HexValue(t[3]);
      if a.None? || b.None? || c.None? || d.None? then None
      else Some((HexByte(a.value, b.value) * 256 + HexByte(c.value, d.value), t[4..]))
  }

  /** What follows `\u`: a character of the basic plane, or a surrogate pair. */
  function ReadUnicode(t: string): (r: Got<char>)
    ensures r.Some? ==> |r.value.1| < |t|
  {
    match ReadHex(t)
    case None => None
    case Some((high, rest)) =>
      if high < 0xD800 || 0xE000 <= high then Some((high as char, rest))
      else if high >= 0xDC00 || |rest| < 2 || rest[..2] != "\\u" then None
      else match ReadHex(rest[2..])
        case None => None
        case Some((low, rest)) =>
          if low < 0xDC00 || 0xE000 <= low then None
          else Some(((0x1_0000 + (high - 0xD800) * 0x400 + (low - 0xDC00)) as char, rest))
  }

  /** Section 7: one character of a string, plain or escaped. */
  function ReadChar(t: string): (r: Got<char>)
    ensures r.Some? ==> |r.value.1| < |t|
  {
    if t == "" || t[0] == '"' || t[0] as int < 0x20 then None
    else if t[0] != '\\' then Some((t[0], t[1..]))
    else if |t| < 2 then None
    else match t[1]
      case '"' => Some(('"', t[2..]))
      case '\\' => Some(('\\', t[2..]))
      case '/' => Some(('/', t[2..]))
      case 'b' => Some((8 as char, t[2..]))
      case 'f' => Some((12 as char, t[2..]))
      case 'n' => Some(('\n', t[2..]))
      case 'r' => Some(('\r', t[2..]))
      case 't' => Some(('\t', t[2..]))
      case 'u' => ReadUnicode(t[2..])
      case _ => None
  }

  /** Characters up to the closing quote. */
  function ReadChars(t: string): (r: Got<string>)
    ensures r.Some? ==> |r.value.1| < |t|
  {
    if StartsWith(t, '"') then Some(("", t[1..]))
    else match ReadChar(t)
      case None => None
      case Some((c, rest)) =>
        match ReadChars(rest)
        case None => None
        case Some((s, rest)) => Some(([c] + s, rest))
  }

  function ReadWord(t: string, word: string, v: Value): (r: Got<Value>)
    requires word != ""
    ensures r.Some? ==> |r.value.1| < |t|
  {
    if word <= t then Some((v, t[|word|..])) else None
  }

  function ReadValue(text: string): (r: Got<Value>)
    ensures r.Some? ==> |r.value.1| < |text|
    decreases |text|, 1
  {
    var t := SkipSpace(text);
    if t == "" then None
    else match t[0]
      case 'n' => ReadWord(t, "null", VNull)
      case 't' => ReadWord(t, "true", VBool(true))
      case 'f' => ReadWord(t, "false", VBool(false))
      case '"' =>
        (match ReadChars(t[1..])
         case None => None
         case Some((s, rest)) => Some((VString(s), rest)))
      case '[' =>
        var inside := SkipSpace(t[1..]);
        if StartsWith(inside, ']') then Some((VArray([]), inside[1..]))
        else (match ReadItems(t[1..])
              case None => None
              case Some((items, rest)) => Some((VArray(items), rest)))
      case '{' =>
        var inside := SkipSpace(t[1..]);
        if StartsWith(inside, '}') then Some((VObject([]), inside[1..]))
        else (match ReadPairs(t[1..])
              case None => None
              case Some((pairs, rest)) => Some((VObject(pairs), rest)))
      case _ => ReadNumber(t)
  }

  /** Elements and commas up to the closing bracket. */
  function ReadItems(t: string): (r: Got<seq<Value>>)
    ensures r.Some? ==> |r.value.1| < |t|
    decreases |t|, 2
  {
    match ReadValue(t)
    case None => None
    case Some((v, rest)) =>
      var after := SkipSpace(rest);
      if StartsWith(after, ']') then Some(([v], after[1..]))
      else if !StartsWith(after, ',') then None
      else match ReadItems(after[1..])
        case None => None
        case Some((items, rest)) => Some(([v] + items, rest))
  }

  /** A quoted key, a colon and a value. */
  function ReadPair(text: string): (r: Got<(string, Value)>)
    ensures r.Some? ==> |r.value.1| < |text|
    decreases |text|, 2
  {
    var t := SkipSpace(text);
    if !StartsWith(t, '"') then None
    else match ReadChars(t[1..])
      case None => None
      case Some((key, rest)) =>
        var after := SkipSpace(rest);
        if !StartsWith(after, ':') then None
        else match ReadValue(after[1..])
          case None => None
          case Some((v, rest)) => Some(((key, v), rest))
  }

  function ReadPairs(t: string): (r: Got<seq<(string, Value)>>)
    ensures r.Some? ==> |r.value.1| < |t|
    decreases |t|, 3
  {
    match ReadPair(t)
    case None => None
    case Some((p, rest)) =>
      var after := SkipSpace(rest);
      if StartsWith(after, '}') then Some(([p], after[1..]))
      else if !StartsWith(after, ',') then None
      else match ReadPairs(after[1..])
        case None => None
        case Some((pairs, rest)) => Some(([p] + pairs, rest))
  }

  /** A whole text: one value, and white space around it. */
  function Read(text: string): Option<Value> {
    match ReadValue(text)
    case None => None
    case Some((v, rest)) => if SkipSpace(rest) == "" then Some(v) else None
  }

  // ---------------------------------------------------------------- reading what was printed

  /** The value a JSON value stands for: integers lose their tag. */
  function Plain(v: Json): Value
    decreases v, 1
  {
    match v
    case Null => VNull
    case Bool(b) => VBool(b)
    case Int(n) => VNumber(n, 0)
    case UInt(u) => VNumber(u, 0)
    case Str(s) => VString(s)
    case Arr(items) => VArray(PlainItems(v, 0))
    case Obj(pairs) => VObject(PlainPairs(v, 0))
  }

  function PlainItems(v: Json, i: nat): seq<Value>
    requires v.Arr? && i <= |v.items|
    decreases v, 0, |v.items| - i
  {
    if i == |v.items| then [] else [Plain(v.items[i])] + PlainItems(v, i + 1)
  }

  function PlainPairs(v: Json, i: nat): seq<(string, Value)>
    requires v.Obj? && i <= |v.pairs|
    decreases v, 0, |v.pairs| - i
  {
    if i == |v.pairs| then [] else [(v.pairs[i].0, Plain(v.pairs[i].1))] + PlainPairs(v, i + 1)
  }

  predicate IsGap(gap: string) {
    forall i :: 0 <= i < |gap| ==> IsSpace(gap[i])
  }

  /** What may follow a value without becoming part of it. */
  predicate Ends(rest: string) {
    rest == "" || !(IsDigit(rest[0]) || rest[0] in {'.', 'e', 'E'})
  }

  predicate Solid(t: string) {
    t == "" || !IsSpace(t[0])
  }

  lemma {:induction false} SkipGap(gap: string, t: string)
    requires IsGap(gap) && Solid(t)
    ensures SkipSpace(gap + t) == t
  {
    if gap == "" {
      assert gap + t == t;
    } else {
      assert (gap + t)[1..] == gap[1..] + t;
      SkipGap(gap[1..], t);
    }
  }

  lemma {:induction false} PadIsGap(depth: nat)
    ensures IsGap(Pad(depth))
  {
    if depth == 0 {
    } else {
      PadIsGap(depth - 1);
    }
  }

  lemma StyleGaps(style: Style)
    ensures IsGap(Opening(style)) && IsGap(Between(style)) && IsGap(Closing(style))
  {
    if style.Pretty? {
      PadIsGap(style.depth);
      PadIsGap(style.depth + 1);
    }
  }

  /** Reading on through the digits of `n` reads `n`. */
  lemma {:induction false} DigitsRead(n: nat, t: string)
    ensures var (m, count, rest) := ReadDigits(t, n);
      ReadDigits(Decimal(n) + t, 0) == (m, count + |Decimal(n)|, rest)
    ensures IsDigit(Decimal(n)[0]) && (Decimal(n)[0] == '0' ==> |Decimal(n)| == 1)
    ensures n > 0 ==> Decimal(n)[0] != '0'
  {
    hide ReadDigits;
    var digit := '0' + (n % 10) as char;
    DecimalIs(n);
    if n < 10 {
      DigitRead(digit, t, 0);
    } else {
      DigitRead(digit, t, n / 10);
      DigitsRead(n / 10, [digit] + t);
      assert Decimal(n) + t == Decimal(n / 10) + ([digit] + t);
      assert 10 * (n / 10) + n % 10 == n;
    }
  }

  lemma DecimalIs(n: nat)
    ensures var digit := '0' + (n % 10) as char;
      && IsDigit(digit) && (digit - '0') as int == n % 10
      && Decimal(n) == if n < 10 then [digit] else Decimal(n / 10) + [digit]
  {
  }

  lemma DigitRead(d: char, t: string, sofar: nat)
    requires IsDigit(d)
    ensures var (n, count, rest) := ReadDigits(t, 10 * sofar + (d - '0') as int);
      ReadDigits([d] + t, sofar) == (n, count + 1, rest)
  {
    assert ([d] + t)[1..] == t;
  }

  lemma NumberRead(n: int, rest: string)
    requires Ends(rest)
    ensures ReadNumber(Signed(n) + rest) == Some((VNumber(n, 0), rest))
  {
    hide Decimal;
    var size: nat := if n < 0 then -n else n;
    DigitsRead(size, rest);
    assert ReadDigits(rest, size) == (size, 0, rest);
    assert ReadFraction(rest, size) == Some((size, 0, rest)) && ReadExponent(rest) == Some((0, rest));
    if n < 0 {
      assert (Signed(n) + rest)[1..] == Decimal(size) + rest;
    }
  }

  lemma CharRead(c: char, t: string)
    ensures Escape(c) != "" && Escape(c)[0] != '"' && ReadChar(Escape(c) + t) == Some((c, t))
  {
    var e := Escape(c);
    assert (e + t)[|e|..] == t;
    if |e| == 6 {
      var hex := e[2..];
      assert (e + t)[2..] == hex + t;
      HexRead(c as int, t);
    }
  }

  lemma HexRead(n: nat, t: string)
    requires n < 0x100
    ensures ReadHex("00" + [HexDigit(n / 16), HexDigit(n % 16)] + t) == Some((n, t))
  {
    HexOne(n / 16);
    HexOne(n % 16);
    assert ("00" + [HexDigit(n / 16), HexDigit(n % 16)] + t)[4..] == t;
  }

  lemma HexOne(n: nat)
    requires n < 16
    ensures HexValue(HexDigit(n)) == Some(n)
  {
  }

  lemma {:induction false} CharsRead(s: string, rest: string)
    ensures ReadChars(Escaped(s) + "\"" + rest) == Some((s, rest))
  {
    hide Escape, ReadChar;
    if s == "" {
      assert ("\"" + rest)[1..] == rest;
    } else {
      var t := Escaped(s[1..]) + "\"" + rest;
      assert Escaped(s) + "\"" + rest == Escape(s[0]) + t;
      CharRead(s[0], t);
      CharsRead(s[1..], rest);
      assert [s[0]] + s[1..] == s;
    }
  }

  lemma QuotedRead(s: string, rest: string)
    ensures var t := Quoted(s) + rest; t != "" && t[0] == '"' && ReadChars(t[1..]) == Some((s, rest))
  {
    assert (Quoted(s) + rest)[1..] == Escaped(s) + "\"" + rest;
    CharsRead(s, rest);
  }

  lemma SignedStarts(n: int)
    ensures var t := Signed(n); t != "" && (t[0] == '-' || IsDigit(t[0]))
  {
    DigitsRead(if n < 0 then -n else n, "");
  }

  /** A printed value starts with a character that says what it is. */
  lemma TextStarts(v: Json, style: Style)
    ensures var t := Text(v, style); t != "" && !IsSpace(t[0]) && t[0] != ']' && t[0] != '}'
  {
    match v
    case Int(n) => SignedStarts(n);
    case UInt(u) => SignedStarts(u);
    case _ =>
  }

  lemma WordRead(t: string, word: string, v: Value, rest: string)
    requires word != "" && t == word + rest
    ensures ReadWord(t, word, v) == Some((v, rest))
  {
  }

  /** A printed value reads back as what it stands for, after any gap, and up to whatever
      follows it. */
  lemma {:induction false} ValueRead(v: Json, style: Style, gap: string, rest: string)
    requires IsGap(gap) && Ends(rest)
    ensures ReadValue(gap + Text(v, style) + rest) == Some((Plain(v), rest))
    decreases v, 1
  {
    var t := Text(v, style) + rest;
    TextStarts(v, style);
    assert gap + Text(v, style) + rest == gap + t;
    GapValue(gap, t);
    match v
    case Arr(items) => ArrayRead(v, style, rest);
    case Obj(pairs) => ObjectRead(v, style, rest);
    case _ => ScalarRead(v, style, rest);
  }

  lemma GapValue(gap: string, t: string)
    requires IsGap(gap) && Solid(t)
    ensures ReadValue(gap + t) == ReadValue(t)
  {
    SkipGap(gap, t);
    SkipGap("", t);
    assert "" + t == t;
  }

  lemma ScalarRead(v: Json, style: Style, rest: string)
    requires !v.Arr? && !v.Obj? && Ends(rest)
    ensures ReadValue(Text(v, style) + rest) == Some((Plain(v), rest))
  {
    hide ReadItems, ReadPairs, ReadNumber, ReadChars;
    var t := Text(v, style) + rest;
    match v
    case Null => WordRead(t, "null", VNull, rest);
    case Bool(b) => WordRead(t, if b then "true" else "false", VBool(b), rest);
    case Int(n) => SignedStarts(n); NumberRead(n, rest);
    case UInt(u) => SignedStarts(u); NumberRead(u, rest);
    case Str(s) => QuotedRead(s, rest);
  }

  lemma ItemsStart(v: Json, i: nat, style: Style)
    requires v.Arr? && i < |v.items|
    ensures var t := Items(v, i, style); t != "" && Solid(t) && !StartsWith(t, ']')
  {
    TextStarts(v.items[i], Inner(style));
  }

  lemma ArrayOpens(t: string, gap: string, body: string, items: seq<Value>, rest: string)
    requires StartsWith(t, '[') && t[1..] == gap + body && IsGap(gap)
    requires Solid(body) && !StartsWith(body, ']') && ReadItems(gap + body) == Some((items, rest))
    ensures ReadValue(t) == Some((VArray(items), rest))
  {
    SkipGap(gap, body);
  }

  lemma ObjectOpens(t: string, gap: string, body: string, pairs: seq<(string, Value)>, rest: string)
    requires StartsWith(t, '{') && t[1..] == gap + body && IsGap(gap)
    requires Solid(body) && !StartsWith(body, '}') && ReadPairs(gap + body) == Some((pairs, rest))
    ensures ReadValue(t) == Some((VObject(pairs), rest))
  {
    SkipGap(gap, body);
  }

  lemma {:induction false} ArrayRead(v: Json, style: Style, rest: string)
    requires v.Arr?
    ensures ReadValue(Text(v, style) + rest) == Some((Plain(v), rest))
    decreases v, 0, |v.items| + 1
  {
    hide ReadItems, IsGap, Opening, Closing, Items;
    var t := Text(v, style) + rest;
    StyleGaps(style);
    if v.items == [] {
      assert t[1..] == "]" + rest && t[1..][1..] == rest;
    } else {
      var body := Items(v, 0, style) + Closing(style) + "]" + rest;
      assert t[1..] == Opening(style) + body;
      ItemsStart(v, 0, style);
      ItemsRead(v, 0, style, Opening(style), rest);
      ArrayOpens(t, Opening(style), body, PlainItems(v, 0), rest);
    }
  }

  lemma LastItem(whole: string, v: Value, close: string, rest: string)
    requires ReadValue(whole) == Some((v, close + ("]" + rest))) && IsGap(close)
    ensures ReadItems(whole) == Some(([v], rest))
  {
    SkipGap(close, "]" + rest);
    assert ("]" + rest)[1..] == rest;
  }

  lemma NextItem(whole: string, v: Value, more: string, vs: seq<Value>, rest: string)
    requires ReadValue(whole) == Some((v, "," + more)) && ReadItems(more) == Some((vs, rest))
    ensures ReadItems(whole) == Some(([v] + vs, rest))
  {
    assert ("," + more)[1..] == more;
  }

  lemma {:induction false} ItemsRead(v: Json, i: nat, style: Style, gap: string, rest: string)
    requires v.Arr? && i < |v.items| && IsGap(gap)
    ensures ReadItems(gap + (Items(v, i, style) + Closing(style) + "]" + rest)) == Some((PlainItems(v, i), rest))
    decreases v, 0, |v.items| - i
  {
    hide ReadItems, ReadValue, Opening, Between, Closing, Text, IsGap;
    StyleGaps(style);
    var one, close := Text(v.items[i], Inner(style)), Closing(style);
    var whole := gap + (Items(v, i, style) + close + "]" + rest);
    if i + 1 == |v.items| {
      GapEnds(close, "]", rest);
      ValueRead(v.items[i], Inner(style), gap, close + ("]" + rest));
      assert whole == gap + one + (close + ("]" + rest));
      LastItem(whole, Plain(v.items[i]), close, rest);
      assert PlainItems(v, i) == [Plain(v.items[i])];
    } else {
      var more := Between(style) + (Items(v, i + 1, style) + close + "]" + rest);
      ValueRead(v.items[i], Inner(style), gap, "," + more);
      assert whole == gap + one + ("," + more);
      ItemsRead(v, i + 1, style, Between(style), rest);
      NextItem(whole, Plain(v.items[i]), more, PlainItems(v, i + 1), rest);
    }
  }

  lemma GapEnds(gap: string, close: string, rest: string)
    requires IsGap(gap) && close != "" && Ends(close)
    ensures Ends(gap + (close + rest))
  {
    if gap != "" { assert IsSpace(gap[0]); }
  }

  lemma {:induction false} ObjectRead(v: Json, style: Style, rest: string)
    requires v.Obj?
    ensures ReadValue(Text(v, style) + rest) == Some((Plain(v), rest))
    decreases v, 0, |v.pairs| + 1
  {
    hide ReadPairs, IsGap, Opening, Closing, Pairs;
    var t := Text(v, style) + rest;
    StyleGaps(style);
    if v.pairs == [] {
      assert t[1..] == "}" + rest && t[1..][1..] == rest;
    } else {
      var body := Pairs(v, 0, style) + Closing(style) + "}" + rest;
      assert t[1..] == Opening(style) + body;
      PairStarts(v, 0, style);
      PairsRead(v, 0, style, Opening(style), rest);
      ObjectOpens(t, Opening(style), body, PlainPairs(v, 0), rest);
    }
  }

  lemma {:induction false} PairRead(v: Json, i: nat, style: Style, gap: string, rest: string)
    requires v.Obj? && i < |v.pairs| && IsGap(gap) && Ends(rest)
    ensures ReadPair(gap + Pair(v, i, style) + rest) == Some(((v.pairs[i].0, Plain(v.pairs[i].1)), rest))
    decreases v, 0, |v.pairs| - i, 0
  {
    hide ReadPair, ReadValue, Quoted, IsGap;
    var (key, value) := v.pairs[i];
    var text := Text(value, Inner(style));
    SpaceIsGap();
    ValueRead(value, Inner(style), " ", rest);
    assert " " + (text + rest) == " " + text + rest;
    KeyRead(gap, key, text + rest, Plain(value), rest);
    assert gap + Pair(v, i, style) + rest == gap + (Quoted(key) + (": " + (text + rest)));
  }

  lemma SpaceIsGap()
    ensures IsGap(" ")
  {
  }

  lemma KeyRead(gap: string, key: string, text: string, v: Value, rest: string)
    requires IsGap(gap) && ReadValue(" " + text) == Some((v, rest))
    ensures ReadPair(gap + (Quoted(key) + (": " + text))) == Some(((key, v), rest))
  {
    hide ReadPair, ReadValue, ReadChars, Quoted;
    var t := Quoted(key) + (": " + text);
    QuotedRead(key, ": " + text);
    SkipGap(gap, t);
    ColonRead(gap + t, t, key, text, v, rest);
  }

  lemma ColonRead(whole: string, t: string, key: string, text: string, v: Value, rest: string)
    requires SkipSpace(whole) == t && StartsWith(t, '"') && ReadChars(t[1..]) == Some((key, ": " + text))
    requires ReadValue(" " + text) == Some((v, rest))
    ensures ReadPair(whole) == Some(((key, v), rest))
  {
    hide ReadChars, ReadValue;
    var after := ": " + text;
    assert SkipSpace(after) == after && after[1..] == " " + text;
  }

  lemma PairStarts(v: Json, i: nat, style: Style)
    requires v.Obj? && i < |v.pairs|
    ensures StartsWith(Pairs(v, i, style), '"')
  {
  }

  lemma LastPair(whole: string, p: (string, Value), close: string, rest: string)
    requires ReadPair(whole) == Some((p, close + ("}" + rest))) && IsGap(close)
    ensures ReadPairs(whole) == Some(([p], rest))
  {
    SkipGap(close, "}" + rest);
    assert ("}" + rest)[1..] == rest;
  }

  lemma NextPair(whole: string, p: (string, Value), more: string, ps: seq<(string, Value)>, rest: string)
    requires ReadPair(whole) == Some((p, "," + more)) && ReadPairs(more) == Some((ps, rest))
    ensures ReadPairs(whole) == Some(([p] + ps, rest))
  {
    assert ("," + more)[1..] == more;
  }

  lemma {:induction false} PairsRead(v: Json, i: nat, style: Style, gap: string, rest: string)
    requires v.Obj? && i < |v.pairs| && IsGap(gap)
    ensures ReadPairs(gap + (Pairs(v, i, style) + Closing(style) + "}" + rest)) == Some((PlainPairs(v, i), rest))
    decreases v, 0, |v.pairs| - i, 1
  {
    hide ReadPairs, ReadPair, Opening, Between, Closing, Text, IsGap, Pair;
    StyleGaps(style);
    var one, close, p := Pair(v, i, style), Closing(style), (v.pairs[i].0, Plain(v.pairs[i].1));
    var whole := gap + (Pairs(v, i, style) + close + "}" + rest);
    if i + 1 == |v.pairs| {
      GapEnds(close, "}", rest);
      PairRead(v, i, style, gap, close + ("}" + rest));
      assert whole == gap + one + (close + ("}" + rest));
      LastPair(whole, p, close, rest);
      assert PlainPairs(v, i) == [p];
    } else {
      var more := Between(style) + (Pairs(v, i + 1, style) + close + "}" + rest);
      PairRead(v, i, style, gap, "," + more);
      assert whole == gap + one + ("," + more);
      PairsRead(v, i + 1, style, Between(style), rest);
      NextPair(whole, p, more, PlainPairs(v, i + 1), rest);
    }
  }

  /** Whatever is printed, on one line or indented, reads back as the value printed. */
  lemma RoundTrip(v: Json, style: Style)
    ensures Read(Text(v, style)) == Some(Plain(v))
  {
    ValueRead(v, style, "", "");
    assert "" + Text(v, style) + "" == Text(v, style);
  }

  /** So two values print alike, in whatever styles, only if they stand for the same value. */
  lemma PrintedApart(a: Json, b: Json, style: Style, style': Style)
    requires Text(a, style) == Text(b, style')
    ensures Plain(a) == Plain(b)
  {
    RoundTrip(a, style);
    RoundTrip(b, style');
  }

  // ---------------------------------------------------------------- the printer

  /** The string that printing appends to. */
  lemma EscapedMore(s: string, i: nat, t: string)
    requires i < |s|
    ensures t + Escape(s[i]) + Escaped(s[i + 1..]) == t + Escaped(s[i..])
  {
    assert s[i..][1..] == s[i + 1..];
  }

  class Out {
    var text: string

    constructor ()
      ensures text == ""
    {
      text := "";
    }

    method Push(more: string)
      modifies this
      ensures text == old(text) + more
    {
      text := text + more;
    }

    method WriteString(s: string)
      modifies this
      ensures text == old(text) + Quoted(s)
    {
      Push("\"");
      ghost var whole := text + Escaped(s);
      assert s[0..] == s;
      for i := 0 to |s|
        invariant text + Escaped(s[i..]) == whole
      {
        ghost var t := text;
        var c := s[i];
        match c {
          case '"' => Push("\\\"");
          case '\\' => Push("\\\\");
          case '\n' => Push("\\n");
          case '\r' => Push("\\r");
          case '\t' => Push("\\t");
          case _ =>
            if c as int < 0x20 || c as int == 0x7f {
              Push("\\u00" + [HexDigit(c as int / 16), HexDigit(c as int % 16)]);
            } else {
              Push([c]);
            }
        }
        EscapedMore(s, i, t);
      }
      assert text + "" == text;
      Push("\"");
      assert text == old(text) + Quoted(s);
    }

    method WriteInt(n: int)
      modifies this
      ensures text == old(text) + Signed(n)
    {
      if n < 0 {
        Push("-");
      }
      Push(Decimal(if n < 0 then -n else n));
    }

    method WritePad(depth: nat)
      modifies this
      ensures text == old(text) + Pad(depth)
    {
      for i := 0 to depth
        invariant text == old(text) + Pad(i)
      {
        Push("  ");
      }
    }

    /** JSON on one line. */
    method WriteCompact(v: Json)
      modifies this
      ensures text == old(text) + Text(v, Compact)
      decreases v, 1
    {
      hide Signed, Quoted, Items, Pairs;
      match v
      case Null => Push("null");
      case Bool(b) => Push(if b then "true" else "false");
      case Int(n) => WriteInt(n);
      case UInt(u) => Push(Decimal(u));
      case Str(s) => WriteString(s);
      case Arr(items) => WriteArray(v);
      case Obj(pairs) => WriteObject(v);
    }

    method WriteArray(v: Json)
      requires v.Arr?
      modifies this
      ensures text == old(text) + Text(v, Compact)
      decreases v, 0
    {
      hide Text, ItemsFrom;
      Push("[");
      ghost var whole := text + ItemsFrom(v, 0);
      for i := 0 to |v.items|
        invariant text + ItemsFrom(v, i) == whole
      {
        ghost var t := text;
        if i > 0 {
          Push(", ");
        }
        WriteCompact(v.items[i]);
        ItemsFromMore(v, i, t);
      }
      ArrayText(v, old(text));
      Push("]");
    }

    method WriteObject(v: Json)
      requires v.Obj?
      modifies this
      ensures text == old(text) + Text(v, Compact)
      decreases v, 0
    {
      hide Text, PairsFrom, Quoted;
      Push("{");
      ghost var whole := text + PairsFrom(v, 0);
      for i := 0 to |v.pairs|
        invariant text + PairsFrom(v, i) == whole
      {
        ghost var t := text;
        if i > 0 {
          Push(", ");
        }
        WriteString(v.pairs[i].0);
        Push(": ");
        WriteCompact(v.pairs[i].1);
        PairsFromMore(v, i, t);
      }
      ObjectText(v, old(text));
      Push("}");
    }

    /** Indented JSON, two spaces a level. */
    method WritePretty(v: Json, depth: nat)
      modifies this
      ensures text == old(text) + Text(v, Pretty(depth))
      decreases v, 1
    {
      hide Text;
      if v.Arr? && v.items != [] {
        WriteArrayLines(v, depth);
      } else if v.Obj? && v.pairs != [] {
        WriteObjectLines(v, depth);
      } else {
        PlainEitherWay(v, depth);
        WriteCompact(v);
      }
    }

    method WriteArrayLines(v: Json, depth: nat)
      requires v.Arr? && v.items != []
      modifies this
      ensures text == old(text) + Text(v, Pretty(depth))
      decreases v, 0
    {
      hide Text, LinesFrom, Pad;
      Push("[\n");
      ghost var whole := text + LinesFrom(v, 0, depth);
      for i := 0 to |v.items|
        invariant text + LinesFrom(v, i, depth) == whole
      {
        ghost var t := text;
        WritePad(depth + 1);
        WritePretty(v.items[i], depth + 1);
        Push(if i + 1 < |v.items| then ",\n" else "\n");
        LinesFromMore(v, i, depth, t);
      }
      ArrayLines(v, depth, old(text));
      WritePad(depth);
      Push("]");
    }

    method WriteObjectLines(v: Json, depth: nat)
      requires v.Obj? && v.pairs != []
      modifies this
      ensures text == old(text) + Text(v, Pretty(depth))
      decreases v, 0
    {
      hide Text, PairLinesFrom, Quoted, Pad;
      Push("{\n");
      ghost var whole := text + PairLinesFrom(v, 0, depth);
      for i := 0 to |v.pairs|
        invariant text + PairLinesFrom(v, i, depth) == whole
      {
        ghost var t := text;
        WritePad(depth + 1);
        WriteString(v.pairs[i].0);
        Push(": ");
        WritePretty(v.pairs[i].1, depth + 1);
        Push(if i + 1 < |v.pairs| then ",\n" else "\n");
        PairLinesFromMore(v, i, depth, t);
      }
      ObjectLines(v, depth, old(text));
      WritePad(depth);
      Push("}");
    }
  }

  /** What is still to be written of an array or object on one line from the `i`-th part on. */
  function ItemsFrom(v: Json, i: nat): string
    requires v.Arr? && i <= |v.items|
  {
    if i == |v.items| then "" else (if i > 0 then ", " else "") + Items(v, i, Compact)
  }

  function PairsFrom(v: Json, i: nat): string
    requires v.Obj? && i <= |v.pairs|
  {
    if i == |v.pairs| then "" else (if i > 0 then ", " else "") + Pairs(v, i, Compact)
  }

  /** The same on lines of its own, the line break after the last part included. */
  function LinesFrom(v: Json, i: nat, depth: nat): string
    requires v.Arr? && i <= |v.items|
  {
    if i == |v.items| then "" else Pad(depth + 1) + Items(v, i, Pretty(depth)) + "\n"
  }

  function PairLinesFrom(v: Json, i: nat, depth: nat): string
    requires v.Obj? && i <= |v.pairs|
  {
    if i == |v.pairs| then "" else Pad(depth + 1) + Pairs(v, i, Pretty(depth)) + "\n"
  }

  lemma ItemsFromMore(v: Json, i: nat, t: string)
    requires v.Arr? && i < |v.items|
    ensures (if i > 0 then t + ", " else t) + Text(v.items[i], Compact) + ItemsFrom(v, i + 1) == t + ItemsFrom(v, i)
  {
    hide Text;
    if i + 1 < |v.items| { assert ", " == "," + Between(Compact); }
  }

  lemma PairJoins(v: Json, i: nat, start: string, style: Style)
    requires v.Obj? && i < |v.pairs|
    ensures start + Quoted(v.pairs[i].0) + ": " + Text(v.pairs[i].1, Inner(style)) == start + Pair(v, i, style)
  {
    hide Text, Quoted;
  }

  lemma PairsFromMore(v: Json, i: nat, t: string)
    requires v.Obj? && i < |v.pairs|
    ensures
      (if i > 0 then t + ", " else t) + Quoted(v.pairs[i].0) + ": " + Text(v.pairs[i].1, Compact) + PairsFrom(v, i + 1)
      == t + PairsFrom(v, i)
  {
    hide Text, Quoted, Pair;
    var start := if i > 0 then t + ", " else t;
    PairJoins(v, i, start, Compact);
    if i + 1 < |v.pairs| { assert ", " == "," + Between(Compact); }
  }

  /** Joining a part, a separator and the parts after it, in the groups printing makes. */
  lemma LineJoins(t: string, pad: string, part: string, rest: string)
    ensures t + pad + part + ",\n" + (pad + rest + "\n") == t + (pad + (part + ("," + ("\n" + pad) + rest)) + "\n")
    ensures t + pad + part + "\n" + "" == t + (pad + (part + "") + "\n")
  {
    assert ",\n" == "," + "\n";
  }

  lemma LinesFromMore(v: Json, i: nat, depth: nat, t: string)
    requires v.Arr? && i < |v.items|
    ensures t + Pad(depth + 1) + Text(v.items[i], Pretty(depth + 1)) + (if i + 1 < |v.items| then ",\n" else "\n")
      + LinesFrom(v, i + 1, depth) == t + LinesFrom(v, i, depth)
  {
    hide Text, Pad;
    LineJoins(t, Pad(depth + 1), Text(v.items[i], Pretty(depth + 1)),
              if i + 1 < |v.items| then Items(v, i + 1, Pretty(depth)) else "");
  }

  lemma PairLinesFromMore(v: Json, i: nat, depth: nat, t: string)
    requires v.Obj? && i < |v.pairs|
    ensures t + Pad(depth + 1) + Quoted(v.pairs[i].0) + ": " + Text(v.pairs[i].1, Pretty(depth + 1))
      + (if i + 1 < |v.pairs| then ",\n" else "\n") + PairLinesFrom(v, i + 1, depth) == t + PairLinesFrom(v, i, depth)
  {
    hide Text, Pad, Quoted, Pair;
    PairJoins(v, i, t + Pad(depth + 1), Pretty(depth));
    LineJoins(t, Pad(depth + 1), Pair(v, i, Pretty(depth)),
              if i + 1 < |v.pairs| then Pairs(v, i + 1, Pretty(depth)) else "");
  }

  lemma ArrayText(v: Json, t: string)
    requires v.Arr?
    ensures ItemsFrom(v, |v.items|) == "" && t + "[" + ItemsFrom(v, 0) + "]" == t + Text(v, Compact)
  {
  }

  lemma ObjectText(v: Json, t: string)
    requires v.Obj?
    ensures PairsFrom(v, |v.pairs|) == "" && t + "{" + PairsFrom(v, 0) + "}" == t + Text(v, Compact)
  {
  }

  lemma BlockJoins(t: string, first: char, pad: string, body: string, out: string, last: string)
    ensures t + ([first] + "\n") + (pad + body + "\n") + out + last
      == t + ([first] + ("\n" + pad) + body + ("\n" + out) + last)
  {
  }

  lemma ArrayLines(v: Json, depth: nat, t: string)
    requires v.Arr? && v.items != []
    ensures LinesFrom(v, |v.items|, depth) == ""
    ensures t + "[\n" + LinesFrom(v, 0, depth) + Pad(depth) + "]" == t + Text(v, Pretty(depth))
  {
    hide Items, Pad;
    BlockJoins(t, '[', Pad(depth + 1), Items(v, 0, Pretty(depth)), Pad(depth), "]");
    assert "[\n" == ['['] + "\n" && "[" == ['['];
  }

  lemma ObjectLines(v: Json, depth: nat, t: string)
    requires v.Obj? && v.pairs != []
    ensures PairLinesFrom(v, |v.pairs|, depth) == ""
    ensures t + "{\n" + PairLinesFrom(v, 0, depth) + Pad(depth) + "}" == t + Text(v, Pretty(depth))
  {
    hide Pairs, Pad;
    BlockJoins(t, '{', Pad(depth + 1), Pairs(v, 0, Pretty(depth)), Pad(depth), "}");
    assert "{\n" == ['{'] + "\n" && "{" == ['{'];
  }

  /** Scalars and empty arrays and objects look the same in both styles. */
  lemma PlainEitherWay(v: Json, depth: nat)
    requires (v.Arr? ==> v.items == []) && (v.Obj? ==> v.pairs == [])
    ensures Text(v, Pretty(depth)) == Text(v, Compact)
  {
  }

  method ToCompact(v: Json) returns (text: string)
    ensures text == Text(v, Compact) && Read(text) == Some(Plain(v))
  {
    var out := new Out();
    out.WriteCompact(v);
    RoundTrip(v, Compact);
    text := out.text;
  }

  method ToPretty(v: Json) returns (text: string)
    ensures text == Text(v, Pretty(0)) && Read(text) == Some(Plain(v))
  {
    var out := new Out();
    out.WritePretty(v, 0);
    RoundTrip(v, Pretty(0));
    text := out.text;
  }
}
