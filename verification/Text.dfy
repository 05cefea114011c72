/** The Go text helpers the codecs rest on: splitting and joining, trimming, decimals. */
module Text {
  import opened Options

  /** strings.Split with a one-character separator. */
  function Split(t: string, sep: char): (parts: seq<string>)
    ensures |parts| >= 1
  {
    if t == "" then [""]
    else
      var rest := Split(t[1..], sep);
      if t[0] == sep then [""] + rest else [[t[0]] + rest[0]] + rest[1..]
  }

  /** strings.Join with a one-character separator. */
  function Join(parts: seq<string>, sep: char): string {
    if |parts| == 0 then ""
    else if |parts| == 1 then parts[0]
    else parts[0] + [sep] + Join(parts[1..], sep)
  }

  predicate Free(t: string, sep: char) {
    forall i :: 0 <= i < |t| ==> t[i] != sep
  }

  lemma {:induction false} SplitHead(h: string, rest: string, sep: char)
    requires Free(h, sep)
    ensures Split(h + [sep] + rest, sep) == [h] + Split(rest, sep)
  {
    if h == "" {
      assert h + [sep] + rest == [sep] + rest;
      assert ([sep] + rest)[1..] == rest;
    } else {
      SplitHead(h[1..], rest, sep);
      assert (h + [sep] + rest)[1..] == h[1..] + [sep] + rest;
      assert [h[0]] + h[1..] == h;
    }
  }

  lemma {:induction false} SplitFree(h: string, sep: char)
    requires Free(h, sep)
    ensures Split(h, sep) == [h]
  {
    if h != "" {
      SplitFree(h[1..], sep);
      assert [h[0]] + h[1..] == h;
    }
  }

  /** Splitting inverts joining when no field contains the separator. */
  lemma {:induction false} SplitJoin(parts: seq<string>, sep: char)
    requires |parts| >= 1 && forall i :: 0 <= i < |parts| ==> Free(parts[i], sep)
    ensures Split(Join(parts, sep), sep) == parts
  {
    if |parts| == 1 {
      SplitFree(parts[0], sep);
    } else {
      SplitJoin(parts[1..], sep);
      SplitHead(parts[0], Join(parts[1..], sep), sep);
      assert [parts[0]] + parts[1..] == parts;
    }
  }

  /** Joining always inverts splitting. */
  lemma {:induction false} JoinSplit(t: string, sep: char)
    ensures Join(Split(t, sep), sep) == t
  {
    if t != "" {
      JoinSplit(t[1..], sep);
      var rest := Split(t[1..], sep);
      if t[0] == sep {
        assert ([""] + rest)[1..] == rest;
        assert t == [sep] + t[1..];
      } else {
        var parts := [[t[0]] + rest[0]] + rest[1..];
        assert parts[1..] == rest[1..];
        assert t == [t[0]] + t[1..];
      }
    }
  }

  // ---------------------------------------------------------------- decimals

  predicate IsDigit(c: char) {
    '0' <= c <= '9'
  }

  predicate AllDecimal(t: string) {
    forall i :: 0 <= i < |t| ==> IsDigit(t[i])
  }

  /** fmt's %d for non-negative integers. */
  function Decimal(n: nat): (t: string)
    ensures t != "" && AllDecimal(t)
  {
    var d := '0' + (n % 10) as char;
    if n < 10 then [d] else Decimal(n / 10) + [d]
  }

  function Number(t: string): nat
    requires AllDecimal(t)
  {
    if t == "" then 0
    else Number(t[..|t| - 1]) * 10 + (t[|t| - 1] as int - '0' as int)
  }

  /** strconv.Atoi: an optional sign, at least one digit, and an int64 value. */
  function Atoi(t: string): Option<int> {
    var signed := t != "" && (t[0] == '-' || t[0] == '+');
    var digits := if signed then t[1..] else t;
    if digits == "" || !AllDecimal(digits) then None
    else
      var magnitude: int := Number(digits);
      var n := if signed && t[0] == '-' then -magnitude else magnitude;
      if -0x8000_0000_0000_0000 <= n < 0x8000_0000_0000_0000 then Some(n) else None
  }

  lemma {:induction false} NumberDecimal(n: nat)
    ensures Number(Decimal(n)) == n
  {
    var t := Decimal(n);
    if n < 10 {
      assert t[..|t| - 1] == "";
    } else {
      NumberDecimal(n / 10);
      assert t[..|t| - 1] == Decimal(n / 10);
    }
  }

  /** Parsing inverts printing for every non-negative int64. */
  lemma AtoiDecimal(n: nat)
    requires n < 0x8000_0000_0000_0000
    ensures Atoi(Decimal(n)) == Some(n)
  {
    NumberDecimal(n);
    assert IsDigit(Decimal(n)[0]);
  }
}
