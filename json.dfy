/** The `requirements` column of an order holds a JSON object with string
    values, written by `json.dumps` and read back by `json.loads`.  A Python
    dict keeps insertion order, so the decoded value is an ordered list of
    (key, value) pairs with distinct keys. */
module Json {
  import opened Common

  ghost predicate DistinctKeys(m: seq<(string, string)>) {
    forall i, j :: 0 <= i < j < |m| ==> m[i].0 != m[j].0
  }

  /** A dict from strings to strings, in insertion order. */
  type Dict = m: seq<(string, string)> | DistinctKeys(m)

  predicate HasKey(m: Dict, k: string) {
    exists i :: 0 <= i < |m| && m[i].0 == k
  }

  /** Where key `k` sits in `m`, if anywhere. */
  function KeyIndex(m: Dict, k: string): (r: Option<nat>)
    ensures r.Some? ==> r.value < |m| && m[r.value].0 == k
    ensures r.None? <==> !HasKey(m, k)
  {
    if |m| == 0 then None
    else if m[0].0 == k then Some(0)
    else
      match KeyIndex(m[1..], k)
      case Some(i) => Some(i + 1)
      case None =>
        assert forall i :: 1 <= i < |m| ==> m[i] == m[1..][i - 1];
        None
  }

  /** `d.get(k)`. */
  function Get(m: Dict, k: string): (r: Option<string>)
    ensures r.Some? <==> HasKey(m, k)
    ensures r.Some? ==> exists i :: 0 <= i < |m| && m[i] == (k, r.value)
  {
    match KeyIndex(m, k)
    case Some(i) => Some(m[i].1)
    case None => None
  }

  /** Distinct keys: a key found anywhere is the one `KeyIndex` finds. */
  lemma KeyIndexUnique(m: Dict, k: string, i: nat)
    requires i < |m| && m[i].0 == k
    ensures KeyIndex(m, k) == Some(i)
  {
  }

  /** `d[k] = v`: an existing key keeps its place and takes the new value;
      a new key goes at the end. */
  function Put(m: Dict, k: string, v: string): (r: Dict)
    ensures Get(r, k) == Some(v)
    ensures forall k' :: k' != k ==> Get(r, k') == Get(m, k')
    ensures HasKey(m, k) ==> |r| == |m|
    ensures !HasKey(m, k) ==> r == m + [(k, v)]
  {
    match KeyIndex(m, k)
    case Some(i) =>
      var r: seq<(string, string)> := m[i := (k, v)];
      assert DistinctKeys(r) by {
        forall a, b | 0 <= a < b < |r| ensures r[a].0 != r[b].0 {
          assert r[a].0 == m[a].0 && r[b].0 == m[b].0;
        }
      }
      KeyIndexUnique(r, k, i);
      forall k' | k' != k ensures Get(r, k') == Get(m, k') {
        if HasKey(m, k') {
          var j := KeyIndex(m, k').value;
          KeyIndexUnique(r, k', j);
        } else {
          forall j | 0 <= j < |r| ensures r[j].0 != k' {
            assert j != i ==> r[j] == m[j];
          }
        }
      }
      r
    case None =>
      var r: seq<(string, string)> := m + [(k, v)];
      assert DistinctKeys(r) by {
        forall a, b | 0 <= a < b < |r| ensures r[a].0 != r[b].0 {
          if b == |m| {
            assert r[a] == m[a];
          }
        }
      }
      KeyIndexUnique(r, k, |m|);
      forall k' | k' != k ensures Get(r, k') == Get(m, k') {
        if HasKey(m, k') {
          var j := KeyIndex(m, k').value;
          KeyIndexUnique(r, k', j);
        }
      }
      r
  }

  // ---------------------------------------------------------------------
  // json.dumps with its default settings (ensure_ascii, ", " and ": ")

  function HexDigit(d: nat): char
    requires d < 16
  {
    "0123456789abcdef"[d]
  }

  /** '{0:04x}'.format(n) */
  function Hex4(n: nat): string
    requires n < 0x1_0000
  {
    [HexDigit(n / 0x1000), HexDigit(n / 0x100 % 16), HexDigit(n / 0x10 % 16), HexDigit(n % 16)]
  }

  /** One character as `json.dumps` writes it inside a string: two-character
      escapes for quote, backslash, \n, \r, \t, \b and \f; printable ASCII
      as itself; everything else as \uXXXX, using a surrogate pair above
      the Basic Multilingual Plane. */
  function EscapeChar(c: char): string {
    var n := c as int;
    if c == '"' then "\\\""
    else if c == '\\' then "\\\\"
    else if c == '\n' then "\\n"
    else if c == '\r' then "\\r"
    else if c == '\t' then "\\t"
    else if n == 8 then "\\b"
    else if n == 12 then "\\f"
    else if ' ' <= c <= '~' then [c]
    else if n < 0x1_0000 then "\\u" + Hex4(n)
    else SurrogateEscape(n)
  }

  /** A code point above the Basic Multilingual Plane as the \\uXXXX\\uXXXX
      of its UTF-16 surrogate pair. */
  function SurrogateEscape(n: int): string
    requires 0x1_0000 <= n < 0x11_0000
  {
    var m := n - 0x1_0000;
    "\\u" + Hex4(0xD800 + m / 0x400) + "\\u" + Hex4(0xDC00 + m % 0x400)
  }

  function EscapeString(s: string): string {
    if |s| == 0 then "" else EscapeChar(s[0]) + EscapeString(s[1..])
  }

  function EncodeString(s: string): string {
    "\"" + EscapeString(s) + "\""
  }

  function EncodeItem(kv: (string, string)): string {
    EncodeString(kv.0) + ": " + EncodeString(kv.1)
  }

  function EncodeItems(m: seq<(string, string)>): string {
    if |m| == 0 then ""
    else if |m| == 1 then EncodeItem(m[0])
    else EncodeItem(m[0]) + ", " + EncodeItems(m[1..])
  }

  /** `json.dumps(d)` */
  function Encode(m: Dict): string {
    "{" + EncodeItems(m) + "}"
  }

  // ---------------------------------------------------------------------
  // json.loads, for the texts json.dumps writes

  function HexValue(c: char): Option<nat> {
    if '0' <= c <= '9' then Some(c as int - '0' as int)
    else if 'a' <= c <= 'f' then Some(c as int - 'a' as int + 10)
    else if 'A' <= c <= 'F' then Some(c as int - 'A' as int + 10)
    else None
  }

  function ParseHex4(s: string): (r: Option<nat>)
    requires |s| >= 4
    ensures r.Some? ==> r.value < 0x1_0000
  {
    match (HexValue(s[0]), HexValue(s[1]), HexValue(s[2]), HexValue(s[3]))
    case (Some(a), Some(b), Some(c), Some(d)) =>
      if a < 16 && b < 16 && c < 16 && d < 16 then Some(a * 0x1000 + b * 0x100 + c * 0x10 + d) else None
    case _ => None
  }

  predicate IsScalar(n: int) {
    0 <= n < 0xD800 || 0xE000 <= n < 0x11_0000
  }

  /** Reads one character of a string body (not its closing quote),
      undoing an escape; gives the character and what follows it. */
  function UnescapeChar(s: string): (r: Option<(char, string)>)
    requires |s| > 0
    ensures r.Some? ==> |r.value.1| < |s|
  {
    if s[0] != '\\' then Some((s[0], s[1..]))
    else if |s| < 2 then None
    else if s[1] == '"' then Some(('"', s[2..]))
    else if s[1] == '\\' then Some(('\\', s[2..]))
    else if s[1] == 'n' then Some(('\n', s[2..]))
    else if s[1] == 'r' then Some(('\r', s[2..]))
    else if s[1] == 't' then Some(('\t', s[2..]))
    else if s[1] == 'b' then Some((8 as char, s[2..]))
    else if s[1] == 'f' then Some((12 as char, s[2..]))
    else if s[1] == 'u' && |s| >= 6 then
      match ParseHex4(s[2..6])
      case None => None
      case Some(hi) =>
        if 0xD800 <= hi < 0xDC00 then
          if |s| >= 12 && s[6] == '\\' && s[7] == 'u' then
            match ParseHex4(s[8..12])
            case Some(lo) =>
              if 0xDC00 <= lo < 0xE000 then
                Some(((0x1_0000 + (hi - 0xD800) * 0x400 + (lo - 0xDC00)) as char, s[12..]))
              else None
            case None => None
          else None
        else if IsScalar(hi) then Some((hi as char, s[6..]))
        else None
    else None
  }

  /** The rest of a string literal after its opening quote: its value and
      what follows the closing quote. */
  function DecodeStringBody(s: string): (r: Option<(string, string)>)
    ensures r.Some? ==> |r.value.1| < |s|
    decreases |s|
  {
    if |s| == 0 then None
    else if s[0] == '"' then Some(("", s[1..]))
    else
      match UnescapeChar(s)
      case None => None
      case Some((c, rest)) =>
        match DecodeStringBody(rest)
        case None => None
        case Some((v, after)) => Some(([c] + v, after))
  }

  function DecodeString(s: string): (r: Option<(string, string)>)
    ensures r.Some? ==> |r.value.1| < |s|
  {
    if |s| > 0 && s[0] == '"' then DecodeStringBody(s[1..]) else None
  }

  /** Members of an object after its '{', added to `acc` as `json.loads`
      does (a repeated key overwrites the earlier value). */
  function DecodeItems(s: string, acc: Dict): Option<Dict>
    decreases |s|
  {
    match DecodeString(s)
    case None => None
    case Some((k, r1)) =>
      if |r1| < 2 || r1[..2] != ": " then None
      else
        match DecodeString(r1[2..])
        case None => None
        case Some((v, r2)) =>
          var acc' := Put(acc, k, v);
          if r2 == "}" then Some(acc')
          else if |r2| >= 2 && r2[..2] == ", " then DecodeItems(r2[2..], acc')
          else None
  }

  /** `json.loads(t)` as a dict, or None where it raises JSONDecodeError. */
  function Decode(t: string): Option<Dict> {
    if |t| == 0 || t[0] != '{' then None
    else if t[1..] == "}" then Some([])
    else DecodeItems(t[1..], [])
  }

  // ---------------------------------------------------------------------
  // json.loads(json.dumps(d)) == d

  lemma HexDigitValue(d: nat)
    requires d < 16
    ensures HexValue(HexDigit(d)) == Some(d)
  {
  }

  /** The four digits `Hex4` writes, as numbers. */
  lemma Hex4Arith(n: nat)
    requires n < 0x1_0000
    ensures n / 0x1000 < 16 && n / 0x100 % 16 < 16 && n / 0x10 % 16 < 16 && n % 16 < 16
    ensures (n / 0x1000) * 0x1000 + (n / 0x100 % 16) * 0x100 + (n / 0x10 % 16) * 0x10 + n % 16 == n
  {
    assert n / 0x10 == (n / 0x100) * 16 + n / 0x10 % 16;
    assert n / 0x100 == (n / 0x1000) * 16 + n / 0x100 % 16;
    assert n == (n / 0x10) * 16 + n % 16;
  }

  lemma ParseHex4Of(s: string, a: nat, b: nat, c: nat, d: nat)
    requires |s| >= 4 && a < 16 && b < 16 && c < 16 && d < 16
    requires HexValue(s[0]) == Some(a) && HexValue(s[1]) == Some(b)
    requires HexValue(s[2]) == Some(c) && HexValue(s[3]) == Some(d)
    ensures ParseHex4(s) == Some(a * 0x1000 + b * 0x100 + c * 0x10 + d)
  {
  }

  lemma Hex4RoundTrip(n: nat)
    requires n < 0x1_0000
    ensures ParseHex4(Hex4(n)) == Some(n)
  {
    Hex4Arith(n);
    var a, b, c, d := n / 0x1000, n / 0x100 % 16, n / 0x10 % 16, n % 16;
    var h := Hex4(n);
    assert h[0] == HexDigit(a) && h[1] == HexDigit(b) && h[2] == HexDigit(c) && h[3] == HexDigit(d);
    HexDigitValue(a);
    HexDigitValue(b);
    HexDigitValue(c);
    HexDigitValue(d);
    ParseHex4Of(h, a, b, c, d);
  }

  lemma Hex4Digits(n: nat, rest: string)
    requires n < 0x1_0000
    ensures (Hex4(n) + rest)[..4] == Hex4(n)
  {
  }

  lemma {:induction false} UnescapeEscape(c: char, rest: string)
    ensures UnescapeChar(EscapeChar(c) + rest) == Some((c, rest))
  {
    var n := c as int;
    if c == '"' || c == '\\' || c == '\n' || c == '\r' || c == '\t' || n == 8 || n == 12 {
      UnescapeShort(c, rest);
    } else if ' ' <= c <= '~' {
      var e := EscapeChar(c) + rest;
      assert e[1..] == rest;
    } else if n < 0x1_0000 {
      UnescapeBmp(c, rest);
    } else {
      UnescapeAstral(c, rest);
    }
  }

  lemma UnescapeShort(c: char, rest: string)
    requires c == '"' || c == '\\' || c == '\n' || c == '\r' || c == '\t' || c as int == 8 || c as int == 12
    ensures UnescapeChar(EscapeChar(c) + rest) == Some((c, rest))
  {
    var e := EscapeChar(c) + rest;
    assert |EscapeChar(c)| == 2;
    assert e[2..] == rest;
  }

  lemma UnescapeBmp(c: char, rest: string)
    requires !(' ' <= c <= '~') && c as int < 0x1_0000
    requires c != '\n' && c != '\r' && c != '\t' && c as int != 8 && c as int != 12
    ensures UnescapeChar(EscapeChar(c) + rest) == Some((c, rest))
  {
    var n := c as int;
    var e := EscapeChar(c) + rest;
    assert EscapeChar(c) == "\\u" + Hex4(n);
    assert e == "\\u" + Hex4(n) + rest;
    assert e[2..6] == Hex4(n);
    Hex4RoundTrip(n);
    assert e[6..] == rest;
  }

  /** The UTF-16 surrogate pair of a code point above the Basic
      Multilingual Plane, and its recombination. */
  lemma SurrogatePair(n: int)
    requires 0x1_0000 <= n < 0x11_0000
    ensures 0xD800 <= 0xD800 + (n - 0x1_0000) / 0x400 < 0xDC00
    ensures 0xDC00 <= 0xDC00 + (n - 0x1_0000) % 0x400 < 0xE000
    ensures 0x1_0000 + ((n - 0x1_0000) / 0x400) * 0x400 + (n - 0x1_0000) % 0x400 == n
  {
  }

  lemma EscapeAstral(c: char)
    requires c as int >= 0x1_0000
    ensures EscapeChar(c) == SurrogateEscape(c as int)
  {
    assert c != '"' && c != '\\' && c != '\n' && c != '\r' && c != '\t';
    assert !(' ' <= c <= '~');
  }

  /** A `\\uXXXX\\uXXXX` pair of a high and a low surrogate reads as one
      character. */
  lemma UnescapePair(h: string, l: string, hi: nat, lo: nat, rest: string)
    requires |h| == 4 && |l| == 4 && ParseHex4(h) == Some(hi) && ParseHex4(l) == Some(lo)
    requires 0xD800 <= hi < 0xDC00 && 0xDC00 <= lo < 0xE000
    requires IsScalar(0x1_0000 + (hi - 0xD800) * 0x400 + (lo - 0xDC00))
    ensures UnescapeChar("\\u" + h + "\\u" + l + rest)
         == Some(((0x1_0000 + (hi - 0xD800) * 0x400 + (lo - 0xDC00)) as char, rest))
  {
    var e := "\\u" + h + "\\u" + l + rest;
    assert e[0] == '\\' && e[1] == 'u';
    assert e[2..6] == h;
    assert e[6] == '\\' && e[7] == 'u';
    assert e[8..12] == l;
    assert e[12..] == rest;
  }

  lemma UnescapeSurrogates(hi: nat, lo: nat, rest: string)
    requires 0xD800 <= hi < 0xDC00 && 0xDC00 <= lo < 0xE000
    requires IsScalar(0x1_0000 + (hi - 0xD800) * 0x400 + (lo - 0xDC00))
    ensures UnescapeChar("\\u" + Hex4(hi) + "\\u" + Hex4(lo) + rest)
         == Some(((0x1_0000 + (hi - 0xD800) * 0x400 + (lo - 0xDC00)) as char, rest))
  {
    Hex4RoundTrip(hi);
    Hex4RoundTrip(lo);
    UnescapePair(Hex4(hi), Hex4(lo), hi, lo, rest);
  }

  lemma UnescapeAstral(c: char, rest: string)
    requires c as int >= 0x1_0000
    ensures UnescapeChar(EscapeChar(c) + rest) == Some((c, rest))
  {
    var n := c as int;
    var m := n - 0x1_0000;
    SurrogatePair(n);
    var hi, lo := 0xD800 + m / 0x400, 0xDC00 + m % 0x400;
    EscapeAstral(c);
    assert SurrogateEscape(n) == "\\u" + Hex4(hi) + "\\u" + Hex4(lo);
    assert 0x1_0000 + (hi - 0xD800) * 0x400 + (lo - 0xDC00) == n;
    UnescapeSurrogates(hi, lo, rest);
  }

  /** No escaped character starts a closing quote. */
  lemma EscapeCharHead(c: char)
    ensures |EscapeChar(c)| > 0 && EscapeChar(c)[0] != '"'
  {
  }

  lemma {:induction false} StringBodyRoundTrip(s: string, rest: string)
    ensures DecodeStringBody(EscapeString(s) + "\"" + rest) == Some((s, rest))
    decreases |s|
  {
    if |s| == 0 {
      assert EscapeString(s) + "\"" + rest == "\"" + rest;
    } else {
      var tail := EscapeString(s[1..]) + "\"" + rest;
      var e := EscapeString(s) + "\"" + rest;
      assert e == EscapeChar(s[0]) + tail;
      EscapeCharHead(s[0]);
      UnescapeEscape(s[0], tail);
      StringBodyRoundTrip(s[1..], rest);
      assert [s[0]] + s[1..] == s;
    }
  }

  lemma StringRoundTrip(s: string, rest: string)
    ensures DecodeString(EncodeString(s) + rest) == Some((s, rest))
  {
    var e := EncodeString(s) + rest;
    assert e[1..] == EscapeString(s) + "\"" + rest;
    StringBodyRoundTrip(s, rest);
  }

  /** One member, then what follows it, decodes to its key and value. */
  lemma ItemRoundTrip(kv: (string, string), tail: string)
    ensures DecodeString(EncodeItem(kv) + tail) == Some((kv.0, ": " + (EncodeString(kv.1) + tail)))
    ensures DecodeString(EncodeString(kv.1) + tail) == Some((kv.1, tail))
  {
    assert EncodeItem(kv) + tail == EncodeString(kv.0) + (": " + (EncodeString(kv.1) + tail));
    StringRoundTrip(kv.0, ": " + (EncodeString(kv.1) + tail));
    StringRoundTrip(kv.1, tail);
  }

  lemma FreshKey(acc: Dict, m: seq<(string, string)>)
    requires |m| > 0 && DistinctKeys(acc + m)
    ensures !HasKey(acc, m[0].0)
    ensures Put(acc, m[0].0, m[0].1) == acc + [m[0]]
  {
    forall i | 0 <= i < |acc| ensures acc[i].0 != m[0].0 {
      assert acc[i] == (acc + m)[i] && m[0] == (acc + m)[|acc|];
    }
  }

  /** One step of `DecodeItems` over a member whose key and value read. */
  lemma DecodeItemsOfMember(s: string, acc: Dict, k: string, v: string, mid: string, tail: string)
    requires DecodeString(s) == Some((k, ": " + mid)) && DecodeString(mid) == Some((v, tail))
    ensures DecodeItems(s, acc)
         == (var acc' := Put(acc, k, v);
             if tail == "}" then Some(acc')
             else if |tail| >= 2 && tail[..2] == ", " then DecodeItems(tail[2..], acc')
             else None)
  {
    var r1 := ": " + mid;
    assert r1[..2] == ": " && r1[2..] == mid;
  }

  /** Decoding one encoded member adds it to the accumulator and goes on
      with what follows it. */
  lemma DecodeItemsStep(kv: (string, string), tail: string, acc: Dict)
    ensures DecodeItems(EncodeItem(kv) + tail, acc)
         == (var acc' := Put(acc, kv.0, kv.1);
             if tail == "}" then Some(acc')
             else if |tail| >= 2 && tail[..2] == ", " then DecodeItems(tail[2..], acc')
             else None)
  {
    ItemRoundTrip(kv, tail);
    DecodeItemsOfMember(EncodeItem(kv) + tail, acc, kv.0, kv.1, EncodeString(kv.1) + tail, tail);
  }

  lemma Associate(a: string, b: string, c: string, d: string)
    ensures (a + b + c) + d == a + (b + (c + d))
  {
  }

  lemma EncodeItemsCons(m: seq<(string, string)>)
    requires |m| > 1
    ensures EncodeItems(m) + "}" == EncodeItem(m[0]) + (", " + (EncodeItems(m[1..]) + "}"))
  {
    assert EncodeItems(m) == EncodeItem(m[0]) + ", " + EncodeItems(m[1..]);
    Associate(EncodeItem(m[0]), ", ", EncodeItems(m[1..]), "}");
  }

  lemma AppendShift<T>(acc: seq<T>, m: seq<T>)
    requires |m| > 0
    ensures (acc + [m[0]]) + m[1..] == acc + m
  {
  }

  lemma LastItemRoundTrip(m: seq<(string, string)>, acc: Dict)
    requires |m| == 1 && DistinctKeys(acc + m)
    ensures DecodeItems(EncodeItems(m) + "}", acc) == Some(acc + m)
  {
    FreshKey(acc, m);
    DecodeItemsStep(m[0], "}", acc);
    assert acc + m == acc + [m[0]];
  }

  lemma {:induction false} ItemsRoundTrip(m: seq<(string, string)>, acc: Dict)
    requires |m| > 0
    requires DistinctKeys(acc + m)
    ensures DecodeItems(EncodeItems(m) + "}", acc) == Some(acc + m)
    decreases |m|
  {
    if |m| == 1 {
      LastItemRoundTrip(m, acc);
    } else {
      FreshKey(acc, m);
      var acc' := Put(acc, m[0].0, m[0].1);
      var rest := EncodeItems(m[1..]) + "}";
      var tail := ", " + rest;
      EncodeItemsCons(m);
      DecodeItemsStep(m[0], tail, acc);
      assert tail[..2] == ", " && tail[2..] == rest;
      AppendShift(acc, m);
      ItemsRoundTrip(m[1..], acc');
    }
  }

  /** Reading back what `json.dumps` wrote gives the same dict, order included. */
  lemma RoundTrip(m: Dict)
    ensures Decode(Encode(m)) == Some(m)
  {
    if |m| == 0 {
      assert Encode(m) == "{}";
    } else {
      EncodeItemsHead(m);
      DecodeBraced(EncodeItems(m));
      assert [] + m == m;
      ItemsRoundTrip(m, []);
    }
  }

  lemma DecodeBraced(body: string)
    requires |body| > 0 && body[0] == '"'
    ensures Decode("{" + body + "}") == DecodeItems(body + "}", [])
  {
    var t := "{" + body + "}";
    assert t[0] == '{' && t[1..] == body + "}";
    assert t[1] == '"';
  }

  lemma EncodeItemsHead(m: seq<(string, string)>)
    requires |m| > 0
    ensures EncodeItems(m)[0] == '"'
  {
  }
}
