/**
 The nesting scan that guards JSON decoding (network/protocol.py), against the canonical
 serialisation of crypto/hash.py: compact separators, ASCII only, strings escaped as in
 section 7 of RFC 8259.
 */
module JsonDepth {
  import opened Prelude

  const MAX_JSON_DEPTH: int := 32

  /** A UTF-16 code unit; a character outside the basic plane is written as two of them. */
  type CodeUnit = x: int | 0 <= x < 0x1_0000

  datatype Json =
    | Null
    | Boolean(value: bool)
    | Number(number: int)
    | Text(units: seq<CodeUnit>)
    | Array(items: seq<Json>)
    | Object(fields: seq<Field>)

  datatype Field = Field(key: seq<CodeUnit>, item: Json)

  const QUOTE: byte := 34
  const BACKSLASH: byte := 92

  function HexByte(d: int): byte
    requires 0 <= d < 16
  {
    if d < 10 then (48 + d) as byte else (87 + d) as byte
  }

  /** One code unit inside a string literal. */
  function Escape(u: CodeUnit): Bytes {
    if u == 34 || u == 92 then [BACKSLASH, u as byte]
    else if u == 8 then [BACKSLASH, 98]
    else if u == 9 then [BACKSLASH, 116]
    else if u == 10 then [BACKSLASH, 110]
    else if u == 12 then [BACKSLASH, 102]
    else if u == 13 then [BACKSLASH, 114]
    else if 32 <= u <= 126 then [u as byte]
    else [BACKSLASH, 117, HexByte(u / 4096), HexByte(u / 256 % 16), HexByte(u / 16 % 16), HexByte(u % 16)]
  }

  function EscapeAll(units: seq<CodeUnit>): Bytes {
    if units == [] then [] else Escape(units[0]) + EscapeAll(units[1..])
  }

  function Literal(units: seq<CodeUnit>): Bytes {
    [QUOTE] + EscapeAll(units) + [QUOTE]
  }

  function Digits(n: nat): Bytes {
    if n < 10 then [(48 + n) as byte] else Digits(n / 10) + [(48 + n % 10) as byte]
  }

  function Decimal(n: int): Bytes {
    if n < 0 then [45] + Digits(-n) else Digits(n)
  }

  /** `json.dumps` with the separators "," and ":"; fields come in the order given. */
  function Serialize(v: Json): Bytes
    decreases v, 1
  {
    match v
    case Null => [110, 117, 108, 108]
    case Boolean(b) => if b then [116, 114, 117, 101] else [102, 97, 108, 115, 101]
    case Number(n) => Decimal(n)
    case Text(units) => Literal(units)
    case Array(items) => [91] + SerializeItems(items) + [93]
    case Object(fields) => [123] + SerializeFields(fields) + [125]
  }

  function SerializeItems(items: seq<Json>): Bytes
    decreases items, 0
  {
    if items == [] then []
    else Serialize(items[0]) + (if |items| == 1 then [] else [44]) + SerializeItems(items[1..])
  }

  function SerializeFields(fields: seq<Field>): Bytes
    decreases fields, 0
  {
    if fields == [] then []
    else Literal(fields[0].key) + [58] + Serialize(fields[0].item)
         + (if |fields| == 1 then [] else [44]) + SerializeFields(fields[1..])
  }

  function Max(a: int, b: int): int { if a < b then b else a }

  /** Container nesting. */
  function Depth(v: Json): (d: int)
    ensures d >= 0
    decreases v, 1
  {
    match v
    case Array(items) => 1 + DepthOfItems(items)
    case Object(fields) => 1 + DepthOfFields(fields)
    case _ => 0
  }

  function DepthOfItems(items: seq<Json>): (d: int)
    ensures d >= 0
    decreases items, 0
  {
    if items == [] then 0 else Max(Depth(items[0]), DepthOfItems(items[1..]))
  }

  function DepthOfFields(fields: seq<Field>): (d: int)
    ensures d >= 0
    decreases fields, 0
  {
    if fields == [] then 0 else Max(Depth(fields[0].item), DepthOfFields(fields[1..]))
  }

  // ---- the scanner --------------------------------------------------------------------

  datatype Scan = Scanning(depth: int, inString: bool, escaped: bool) | Refused

  function ScanByte(s: Scan, b: byte): Scan {
    match s
    case Refused => Refused
    case Scanning(depth, inString, escaped) =>
      if inString then
        if escaped then Scanning(depth, true, false)
        else if b == BACKSLASH then Scanning(depth, true, true)
        else if b == QUOTE then Scanning(depth, false, false)
        else s
      else if b == QUOTE then Scanning(depth, true, escaped)
      else if b == 91 || b == 123 then
        if depth + 1 > MAX_JSON_DEPTH then Refused else Scanning(depth + 1, false, escaped)
      else if b == 93 || b == 125 then
        if depth - 1 < 0 then Refused else Scanning(depth - 1, false, escaped)
      else s
  }

  function ScanFrom(s: Scan, data: Bytes): Scan
    decreases |data|
  {
    if data == [] then s else ScanFrom(ScanByte(s, data[0]), data[1..])
  }

  predicate Passes(data: Bytes) {
    ScanFrom(Scanning(0, false, false), data) == Scanning(0, false, false)
  }

  lemma {:induction false} ScanConcat(s: Scan, a: Bytes, b: Bytes)
    ensures ScanFrom(s, a + b) == ScanFrom(ScanFrom(s, a), b)
    decreases |a|
  {
    if a == [] {
      assert a + b == b;
    } else {
      assert (a + b)[1..] == a[1..] + b;
      ScanConcat(ScanByte(s, a[0]), a[1..], b);
    }
  }

  /** Once refused, always refused. */
  lemma {:induction false} RefusedStays(data: Bytes)
    ensures ScanFrom(Refused, data) == Refused
  {
    if data != [] {
      RefusedStays(data[1..]);
    }
  }

  /** An escape bit outside a string is never set. */
  ghost predicate Clean(s: Scan) {
    s.Scanning? && !s.inString ==> !s.escaped
  }

  /** `_check_depth`: False stands for the ProtocolError it raises. */
  method CheckDepth(data: Bytes) returns (ok: bool)
    ensures ok == Passes(data)
  {
    var depth, inString, escaped := 0, false, false;
    for i := 0 to |data|
      invariant ScanFrom(Scanning(0, false, false), data[..i]) == Scanning(depth, inString, escaped)
      invariant Clean(Scanning(depth, inString, escaped))
    {
      ghost var before := Scanning(depth, inString, escaped);
      var b := data[i];
      ScanOne(data, i, before);
      if inString {
        if escaped {
          escaped := false;
        } else if b == BACKSLASH {
          escaped := true;
        } else if b == QUOTE {
          inString := false;
        }
      } else if b == QUOTE {
        inString := true;
      } else if b == 91 || b == 123 {
        depth := depth + 1;
        if depth > MAX_JSON_DEPTH {
          ScanRefused(data, i + 1);
          return false;
        }
      } else if b == 93 || b == 125 {
        depth := depth - 1;
        if depth < 0 {
          ScanRefused(data, i + 1);
          return false;
        }
      }
    }
    assert data[..|data|] == data;
    ok := !inString && depth == 0;
  }

  lemma ScanOne(data: Bytes, i: nat, s: Scan)
    requires i < |data| && ScanFrom(Scanning(0, false, false), data[..i]) == s
    ensures ScanFrom(Scanning(0, false, false), data[..i + 1]) == ScanByte(s, data[i])
  {
    assert data[..i + 1] == data[..i] + [data[i]];
    ScanConcat(Scanning(0, false, false), data[..i], [data[i]]);
    assert ScanFrom(s, [data[i]]) == ScanByte(s, data[i]);
  }

  lemma ScanRefused(data: Bytes, i: nat)
    requires i <= |data| && ScanFrom(Scanning(0, false, false), data[..i]) == Refused
    ensures !Passes(data)
  {
    assert data == data[..i] + data[i..];
    ScanConcat(Scanning(0, false, false), data[..i], data[i..]);
    RefusedStays(data[i..]);
  }

  // ---- scanning a serialised value -------------------------------------------------------

  /** Bytes that mean nothing to the scanner outside a string. */
  predicate Plain(data: Bytes) {
    forall i :: 0 <= i < |data| ==> data[i] !in {34, 91, 93, 123, 125}
  }

  lemma {:induction false} ScanPlain(d: int, data: Bytes)
    requires Plain(data)
    ensures ScanFrom(Scanning(d, false, false), data) == Scanning(d, false, false)
  {
    if data != [] {
      ScanPlain(d, data[1..]);
    }
  }

  lemma {:induction false} DigitsPlain(n: nat)
    ensures Plain(Digits(n))
  {
    if n >= 10 {
      DigitsPlain(n / 10);
    }
  }

  lemma ScanPair(s: Scan, x: byte, y: byte)
    ensures ScanFrom(s, [x, y]) == ScanByte(ScanByte(s, x), y)
  {
    assert [x, y][1..] == [y];
    assert ScanFrom(s, [x, y]) == ScanFrom(ScanByte(s, x), [y]);
    assert ScanFrom(ScanByte(s, x), [y]) == ScanFrom(ScanByte(ScanByte(s, x), y), []);
  }

  /** An escaped code unit keeps the scanner inside the string. */
  lemma ScanEscape(d: int, u: CodeUnit)
    ensures ScanFrom(Scanning(d, true, false), Escape(u)) == Scanning(d, true, false)
  {
    var s := Scanning(d, true, false);
    var e := Escape(u);
    if |e| == 1 {
      assert ScanFrom(s, e) == ScanFrom(ScanByte(s, e[0]), []);
    } else if |e| == 2 {
      assert e == [e[0], e[1]];
      ScanPair(s, e[0], e[1]);
    } else {
      var tail := e[2..];
      assert e == [e[0], e[1]] + tail;
      ScanConcat(s, [e[0], e[1]], tail);
      ScanPair(s, e[0], e[1]);
      ScanHex(d, tail);
    }
  }

  lemma {:induction false} ScanHex(d: int, data: Bytes)
    requires forall i :: 0 <= i < |data| ==> data[i] != QUOTE && data[i] != BACKSLASH
    ensures ScanFrom(Scanning(d, true, false), data) == Scanning(d, true, false)
  {
    if data != [] {
      ScanHex(d, data[1..]);
    }
  }

  lemma {:induction false} ScanEscapes(d: int, units: seq<CodeUnit>)
    ensures ScanFrom(Scanning(d, true, false), EscapeAll(units)) == Scanning(d, true, false)
  {
    if units != [] {
      ScanConcat(Scanning(d, true, false), Escape(units[0]), EscapeAll(units[1..]));
      ScanEscape(d, units[0]);
      ScanEscapes(d, units[1..]);
    }
  }

  /** A string literal, whatever it contains, leaves the nesting unchanged. */
  lemma ScanLiteral(d: int, units: seq<CodeUnit>)
    ensures ScanFrom(Scanning(d, false, false), Literal(units)) == Scanning(d, false, false)
  {
    var s := Scanning(d, false, false);
    ScanConcat(s, [QUOTE] + EscapeAll(units), [QUOTE]);
    ScanConcat(s, [QUOTE], EscapeAll(units));
    ScanEscapes(d, units);
  }

  /** The state after a value nested `depth` deep, started at nesting `d`. */
  function After(d: int, depth: int): Scan {
    if d + depth <= MAX_JSON_DEPTH then Scanning(d, false, false) else Refused
  }

  lemma {:induction false} ScanValue(d: int, v: Json)
    requires 0 <= d <= MAX_JSON_DEPTH
    ensures ScanFrom(Scanning(d, false, false), Serialize(v)) == After(d, Depth(v))
    decreases v, 1
  {
    match v {
      case Null => ScanPlain(d, Serialize(v));
      case Boolean(b) => ScanPlain(d, Serialize(v));
      case Number(n) =>
        DigitsPlain(if n < 0 then -n else n);
        ScanPlain(d, Serialize(v));
      case Text(units) => ScanLiteral(d, units);
      case Array(items) =>
        if d < MAX_JSON_DEPTH { ScanItems(d + 1, items); }
        ScanContainer(d, 91, SerializeItems(items), 93, DepthOfItems(items));
      case Object(fields) =>
        if d < MAX_JSON_DEPTH { ScanFields(d + 1, fields); }
        ScanContainer(d, 123, SerializeFields(fields), 125, DepthOfFields(fields));
    }
  }

  lemma ScanContainer(d: int, open: byte, body: Bytes, close: byte, depth: int)
    requires 0 <= d <= MAX_JSON_DEPTH && depth >= 0
    requires (open == 91 && close == 93) || (open == 123 && close == 125)
    requires d < MAX_JSON_DEPTH ==> ScanFrom(Scanning(d + 1, false, false), body) == After(d + 1, depth)
    ensures ScanFrom(Scanning(d, false, false), [open] + body + [close]) == After(d, 1 + depth)
  {
    var s := Scanning(d, false, false);
    ScanConcat(s, [open] + body, [close]);
    ScanConcat(s, [open], body);
    assert ScanFrom(s, [open]) == ScanByte(s, open);
    RefusedStays(body);
    RefusedStays([close]);
    assert ScanFrom(Scanning(d + 1, false, false), [close]) == ScanByte(Scanning(d + 1, false, false), close);
  }

  /** A value followed by plain separators and the rest of a list. */
  lemma ScanThen(d: int, first: Bytes, depth: int, gap: Bytes, rest: Bytes, restDepth: int)
    requires 0 <= d <= MAX_JSON_DEPTH && Plain(gap)
    requires ScanFrom(Scanning(d, false, false), first) == After(d, depth)
    requires ScanFrom(Scanning(d, false, false), rest) == After(d, restDepth)
    ensures ScanFrom(Scanning(d, false, false), first + gap + rest) == After(d, Max(depth, restDepth))
  {
    var s := Scanning(d, false, false);
    ScanConcat(s, first + gap, rest);
    ScanConcat(s, first, gap);
    ScanPlain(d, gap);
    RefusedStays(gap);
    RefusedStays(rest);
  }

  lemma {:induction false} ScanItems(d: int, items: seq<Json>)
    requires 0 <= d <= MAX_JSON_DEPTH
    ensures ScanFrom(Scanning(d, false, false), SerializeItems(items)) == After(d, DepthOfItems(items))
    decreases items, 0
  {
    if items != [] {
      ScanValue(d, items[0]);
      ScanItems(d, items[1..]);
      var gap: Bytes := if |items| == 1 then [] else [44];
      ScanThen(d, Serialize(items[0]), Depth(items[0]), gap, SerializeItems(items[1..]), DepthOfItems(items[1..]));
    }
  }

  lemma {:induction false} ScanFields(d: int, fields: seq<Field>)
    requires 0 <= d <= MAX_JSON_DEPTH
    ensures ScanFrom(Scanning(d, false, false), SerializeFields(fields)) == After(d, DepthOfFields(fields))
    decreases fields, 0
  {
    if fields != [] {
      var f := fields[0];
      ScanLiteral(d, f.key);
      ScanValue(d, f.item);
      ScanFields(d, fields[1..]);
      var gap: Bytes := if |fields| == 1 then [] else [44];
      ScanThen(d, Literal(f.key), 0, [58], Serialize(f.item), Depth(f.item));
      assert Literal(f.key) + [58] + Serialize(f.item) + gap + SerializeFields(fields[1..])
          == (Literal(f.key) + [58] + Serialize(f.item)) + gap + SerializeFields(fields[1..]);
      ScanThen(d, Literal(f.key) + [58] + Serialize(f.item), Depth(f.item), gap,
               SerializeFields(fields[1..]), DepthOfFields(fields[1..]));
    }
  }

  /** The scan accepts a canonical value exactly when its containers nest at most 32 deep. */
  lemma DepthGuardExact(v: Json)
    ensures Passes(Serialize(v)) <==> Depth(v) <= MAX_JSON_DEPTH
  {
    ScanValue(0, v);
  }
}
