/** Helpers shared by every layer: optional values, a clock, the
    string operations Python's `str.split`/`str.join` perform, and the
    "first missing required field" scan the handlers run over request bodies. */
module Common {

  datatype Option<+T> = None | Some(value: T) {
    function GetOr(default: T): T {
      match this
      case Some(v) => v
      case None => default
    }
  }

  /** An opaque clock reading (`datetime.utcnow()` / `db.func.now()`). */
  type Clock = nat

  /** `sep.join(parts)`. */
  function Join(parts: seq<string>, sep: string): (r: string)
    ensures |parts| == 1 ==> r == parts[0]
  {
    if |parts| == 0 then ""
    else if |parts| == 1 then parts[0]
    else parts[0] + sep + Join(parts[1..], sep)
  }

  /** `s.split(c)` for a one-character separator: the maximal runs between
      separators, empty ones included, so there is always at least one field. */
  function Split(s: string, c: char): (fields: seq<string>)
    ensures |fields| >= 1
    decreases |s|
  {
    if |s| == 0 then [""]
    else if s[0] == c then [""] + Split(s[1..], c)
    else
      var rest := Split(s[1..], c);
      [[s[0]] + rest[0]] + rest[1..]
  }

  /** Splitting and re-joining with the same separator gives the input back. */
  lemma {:induction false} JoinSplit(s: string, c: char)
    ensures Join(Split(s, c), [c]) == s
    decreases |s|
  {
    if |s| > 0 {
      JoinSplit(s[1..], c);
      var rest := Split(s[1..], c);
      if s[0] == c {
        JoinCons("", rest, [c]);
      } else {
        var head := [s[0]] + rest[0];
        if |rest| > 1 {
          JoinCons(head, rest[1..], [c]);
          JoinCons(rest[0], rest[1..], [c]);
          assert [rest[0]] + rest[1..] == rest;
        }
      }
      assert s == [s[0]] + s[1..];
    }
  }

  lemma JoinCons(p: string, ps: seq<string>, sep: string)
    requires |ps| > 0
    ensures Join([p] + ps, sep) == p + sep + Join(ps, sep)
  {
    assert ([p] + ps)[1..] == ps;
  }

  /** A field has no separator iff the string had none: `s.split(c)` has
      exactly one field exactly when `c` does not occur in `s`. */
  lemma {:induction false} SplitSingleField(s: string, c: char)
    ensures |Split(s, c)| == 1 <==> c !in s
    decreases |s|
  {
    if |s| > 0 {
      SplitSingleField(s[1..], c);
      assert s == [s[0]] + s[1..];
    }
  }

  /** Without a separator the whole string is the one field. */
  lemma SplitWithoutSeparator(s: string, c: char)
    requires c !in s
    ensures Split(s, c) == [s]
  {
    SplitSingleField(s, c);
    JoinSplit(s, c);
  }

  /** A separator-free word, the separator, then anything: the word is the
      first field and the rest splits on its own. */
  lemma {:induction false} SplitAfterWord(a: string, b: string, c: char)
    requires c !in a
    ensures Split(a + [c] + b, c) == [a] + Split(b, c)
    decreases |a|
  {
    var s := a + [c] + b;
    if |a| == 0 {
      assert s == [c] + b && s[1..] == b;
    } else {
      assert s[0] == a[0] && s[1..] == a[1..] + [c] + b;
      SplitAfterWord(a[1..], b, c);
      assert [a[0]] + a[1..] == a;
    }
  }

  /** The loop `for field in required_fields: if field not in data: return
      400`, which stops at the first required name the body lacks. */
  method FirstMissing(required: seq<string>, present: set<string>) returns (missing: Option<string>)
    ensures missing == MissingField(required, present)
  {
    var i := 0;
    while i < |required|
      invariant 0 <= i <= |required|
      invariant MissingField(required[i..], present) == MissingField(required, present)
    {
      if required[i] !in present {
        return Some(required[i]);
      }
      assert required[i..][1..] == required[i + 1..];
      i := i + 1;
    }
    return None;
  }

  /** `f'{field} is required'`, the reply to a body that lacks `field`. */
  function RequiredMessage(field: string): string {
    field + " is required"
  }

  /** The first name of `required`, in list order, that is not in `present`. */
  function MissingField(required: seq<string>, present: set<string>): (r: Option<string>)
    ensures r.None? <==> forall k :: 0 <= k < |required| ==> required[k] in present
    ensures r.Some? ==> exists k :: 0 <= k < |required| && required[k] == r.value
                          && required[k] !in present
                          && forall j :: 0 <= j < k ==> required[j] in present
  {
    if |required| == 0 then None
    else if required[0] !in present then Some(required[0])
    else
      var r := MissingField(required[1..], present);
      assert forall k :: 1 <= k < |required| ==> required[k] == required[1..][k - 1];
      r
  }

  /** f"{n}" for an integer: optional '-' then decimal digits. */
  function IntToString(n: int): (s: string)
    ensures |s| > 0
  {
    if n < 0 then "-" + NatToString(-n) else NatToString(n)
  }

  /** The decimal rendering of `n`, most significant digit first. */
  function NatToString(n: nat): (s: string)
    ensures |s| > 0
    ensures forall k :: 0 <= k < |s| ==> '0' <= s[k] <= '9'
    ensures DecimalValue(s) == n
  {
    if n < 10 then [Digit(n)]
    else
      var init := NatToString(n / 10);
      assert (init + [Digit(n % 10)])[..|init|] == init;
      init + [Digit(n % 10)]
  }

  /** The number a string of decimal digits denotes. */
  function DecimalValue(s: string): nat
    requires forall k :: 0 <= k < |s| ==> '0' <= s[k] <= '9'
  {
    if |s| == 0 then 0 else DecimalValue(s[..|s| - 1]) * 10 + (s[|s| - 1] as int - '0' as int)
  }

  /** Distinct counts print differently. */
  lemma NatToStringInjective(m: nat, n: nat)
    requires NatToString(m) == NatToString(n)
    ensures m == n
  {
  }

  function Digit(d: nat): (c: char)
    requires d < 10
    ensures '0' <= c <= '9' && c as int - '0' as int == d
  {
    ('0' as int + d) as char
  }
}
