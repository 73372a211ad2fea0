/**
 * The tokenizer and the integer-to-decimal routines of base/string_utils.hpp.
 *
 * Strings are sequences of Unicode code points (the UTF-8 decoding the C++
 * iterator performs is not modelled), and the delimiter functor is the set of
 * code points it answers `true` for.
 */
module StringUtils {

  /** A Unicode code point as the source stores it: a 32-bit unsigned value. */
  type UniChar = c: int | 0 <= c < 0x1_0000_0000

  // ---------------------------------------------------------------------------
  // Reference definition of tokenization: maximal runs of non-delimiters
  // ---------------------------------------------------------------------------

  /**
   * Splits `s` into its maximal runs of non-delimiters, reading one code point
   * at a time; `cur` is the run read so far and not yet closed by a delimiter.
   */
  function Split(s: seq<UniChar>, delims: set<UniChar>, cur: seq<UniChar>): seq<seq<UniChar>>
    decreases |s|
  {
    if s == [] then
      (if cur == [] then [] else [cur])
    else if s[0] in delims then
      (if cur == [] then [] else [cur]) + Split(s[1..], delims, [])
    else
      Split(s[1..], delims, cur + [s[0]])
  }

  /** The tokens of `s`: its maximal runs of non-delimiters, left to right. */
  function Tokens(s: seq<UniChar>, delims: set<UniChar>): seq<seq<UniChar>>
  {
    Split(s, delims, [])
  }

  /** The non-delimiter code points of `s`, in order. */
  function NonDelims(s: seq<UniChar>, delims: set<UniChar>): seq<UniChar>
  {
    if s == [] then []
    else (if s[0] in delims then [] else [s[0]]) + NonDelims(s[1..], delims)
  }

  /** The concatenation of a sequence of tokens. */
  function Flatten(ts: seq<seq<UniChar>>): seq<UniChar>
  {
    if ts == [] then [] else ts[0] + Flatten(ts[1..])
  }

  lemma FlattenAppend(a: seq<seq<UniChar>>, b: seq<seq<UniChar>>)
    ensures Flatten(a + b) == Flatten(a) + Flatten(b)
  {
    if a == [] {
      assert a + b == b;
    } else {
      assert (a + b)[1..] == a[1..] + b;
      FlattenAppend(a[1..], b);
    }
  }

  /** Every token is non-empty and holds no delimiter. */
  lemma {:induction false} SplitTokensWellFormed(s: seq<UniChar>, delims: set<UniChar>, cur: seq<UniChar>)
    requires forall c :: c in cur ==> c !in delims
    ensures forall t :: t in Split(s, delims, cur) ==> |t| > 0 && forall c :: c in t ==> c !in delims
    decreases |s|
  {
    if s == [] {
    } else if s[0] in delims {
      SplitTokensWellFormed(s[1..], delims, []);
    } else {
      SplitTokensWellFormed(s[1..], delims, cur + [s[0]]);
    }
  }

  /** Tokenizing loses no non-delimiter and keeps their order. */
  lemma {:induction false} SplitFlatten(s: seq<UniChar>, delims: set<UniChar>, cur: seq<UniChar>)
    ensures Flatten(Split(s, delims, cur)) == cur + NonDelims(s, delims)
    decreases |s|
  {
    if s == [] {
      if cur != [] {
        assert Flatten([cur]) == cur + Flatten([]);
      }
    } else if s[0] in delims {
      var head: seq<seq<UniChar>> := if cur == [] then [] else [cur];
      SplitFlatten(s[1..], delims, []);
      FlattenAppend(head, Split(s[1..], delims, []));
      if cur != [] {
        assert Flatten([cur]) == cur + Flatten([]);
      }
    } else {
      SplitFlatten(s[1..], delims, cur + [s[0]]);
    }
  }

  /** The tokens are non-empty, delimiter-free, and together hold exactly the non-delimiters of `s`. */
  lemma TokensProperties(s: seq<UniChar>, delims: set<UniChar>)
    ensures forall t :: t in Tokens(s, delims) ==> |t| > 0 && forall c :: c in t ==> c !in delims
    ensures Flatten(Tokens(s, delims)) == NonDelims(s, delims)
  {
    SplitTokensWellFormed(s, delims, []);
    SplitFlatten(s, delims, []);
  }

  lemma {:induction false} NonDelimsEmpty(s: seq<UniChar>, delims: set<UniChar>)
    ensures NonDelims(s, delims) == [] <==> forall k :: 0 <= k < |s| ==> s[k] in delims
  {
    if s != [] {
      NonDelimsEmpty(s[1..], delims);
      if s[0] in delims {
        forall k | 1 <= k < |s| && (forall j :: 0 <= j < |s| - 1 ==> s[1..][j] in delims)
          ensures s[k] in delims
        {
          assert s[k] == s[1..][k - 1];
        }
      }
    }
  }

  /** An empty or all-delimiter string yields no token, and any other string yields at least one. */
  lemma TokensEmptyIff(s: seq<UniChar>, delims: set<UniChar>)
    ensures Tokens(s, delims) == [] <==> forall k :: 0 <= k < |s| ==> s[k] in delims
  {
    TokensProperties(s, delims);
    NonDelimsEmpty(s, delims);
  }

  /** A prefix of delimiters contributes nothing to the tokens. */
  lemma {:induction false} SplitSkipDelims(s: seq<UniChar>, delims: set<UniChar>, i: nat, b: nat)
    requires i <= b <= |s|
    requires forall k :: i <= k < b ==> s[k] in delims
    ensures Split(s[i..], delims, []) == Split(s[b..], delims, [])
    decreases b - i
  {
    if i < b {
      assert s[i..][1..] == s[i + 1..];
      SplitSkipDelims(s, delims, i + 1, b);
    }
  }

  /** A run of non-delimiters from `b` to the next delimiter `e` is exactly one token. */
  lemma {:induction false} SplitRun(s: seq<UniChar>, delims: set<UniChar>, b: nat, k: nat, e: nat)
    requires b <= k <= e <= |s| && b < e
    requires forall j :: b <= j < e ==> s[j] !in delims
    requires e < |s| ==> s[e] in delims
    ensures Split(s[k..], delims, s[b..k]) == [s[b..e]] + Split(s[e..], delims, [])
    decreases e - k
  {
    if k < e {
      assert s[k..][1..] == s[k + 1..];
      assert s[b..k] + [s[k]] == s[b..k + 1];
      SplitRun(s, delims, b, k + 1, e);
    } else if e < |s| {
      assert s[e..][1..] == s[e + 1..];
    }
  }

  // ---------------------------------------------------------------------------
  // TokenizeIterator
  // ---------------------------------------------------------------------------

  /**
   * The iterator over the tokens of `s`. The current token is s[beg..end];
   * `beg == |s|` is the exhausted iterator (m_beg == m_finish).
   */
  class TokenizeIterator {
    const s: seq<UniChar>
    const delims: set<UniChar>
    var beg: nat
    var end: nat

    /** The state every public operation leaves behind (the effect of `move`). */
    ghost predicate Valid()
      reads this
    {
      && beg <= end <= |s|
      && (beg < |s| ==> s[beg] !in delims)
      && (forall k :: beg <= k < end ==> s[k] !in delims)
      && (end < |s| ==> s[end] in delims)
    }

    /** Positions the iterator on the first token of `str`. */
    constructor (str: seq<UniChar>, delimiters: set<UniChar>)
      ensures Valid() && s == str && delims == delimiters
      ensures forall k :: 0 <= k < beg ==> s[k] in delims
    {
      s, delims := str, delimiters;
      beg, end := 0, 0;
      new;
      Move();
    }

    /** The copy constructor IsLast uses. */
    constructor Copy(other: TokenizeIterator)
      ensures s == other.s && delims == other.delims
      ensures beg == other.beg && end == other.end
    {
      s, delims := other.s, other.delims;
      beg, end := other.beg, other.end;
    }

    /**
     * `move`: `beg` becomes the first non-delimiter at or after the old `end`
     * (or the end of input), and `end` the first delimiter after `beg` (or the
     * end of input).
     */
    method Move()
      requires end <= |s|
      modifies this`beg, this`end
      ensures Valid()
      ensures old(end) <= beg
      ensures forall k :: old(end) <= k < beg ==> s[k] in delims
    {
      beg := end;
      while beg != |s|
        invariant old(end) <= beg <= |s|
        invariant forall k :: old(end) <= k < beg ==> s[k] in delims
      {
        if s[beg] in delims {
          beg := beg + 1;
        } else {
          break;
        }
      }
      end := beg;
      while end != |s|
        invariant old(end) <= beg <= end <= |s|
        invariant forall k :: old(end) <= k < beg ==> s[k] in delims
        invariant beg < |s| ==> s[beg] !in delims
        invariant forall k :: beg <= k < end ==> s[k] !in delims
      {
        if s[end] in delims {
          break;
        } else {
          end := end + 1;
        }
      }
    }

    /** `operator bool`: a valid iterator is positioned on a non-empty token. */
    predicate HasToken()
      reads this
      requires Valid()
      ensures HasToken() ==> beg < end
    {
      beg != |s|
    }

    /** `operator*`: the current token, non-empty and free of delimiters. */
    function Current(): (t: seq<UniChar>)
      reads this
      requires Valid() && HasToken()
      ensures |t| > 0
      ensures forall c :: c in t ==> c !in delims
    {
      s[beg..end]
    }

    /** `operator++`: moves to the next token; on a valid iterator `beg` strictly advances. */
    method Next()
      requires Valid()
      modifies this`beg, this`end
      ensures Valid()
      ensures old(HasToken()) ==> beg > old(beg)
      ensures old(end) <= beg
      ensures forall k :: old(end) <= k < beg ==> s[k] in delims
    {
      Move();
    }

    /** `IsLast`: the iterator is valid and one more advance exhausts it; the iterator is left as it was. */
    method IsLast() returns (r: bool)
      requires Valid()
      ensures r <==> HasToken() && forall k :: end <= k < |s| ==> s[k] in delims
    {
      if !HasToken() {
        return false;
      }
      var copy := new TokenizeIterator.Copy(this);
      copy.Next();
      r := !copy.HasToken();
    }
  }

  /** `Tokenize`: the functor `f` receives the tokens of `str` in order; the model returns that sequence of calls. */
  method Tokenize(str: seq<UniChar>, delims: set<UniChar>) returns (calls: seq<seq<UniChar>>)
    ensures calls == Tokens(str, delims)
  {
    var iter := new TokenizeIterator(str, delims);
    calls := [];
    SplitSkipDelims(str, delims, 0, iter.beg);
    assert str[0..] == str;
    while iter.HasToken()
      invariant iter.Valid() && iter.s == str && iter.delims == delims
      invariant calls + Tokens(str[iter.beg..], delims) == Tokens(str, delims)
      decreases |str| - iter.beg
    {
      ghost var b, e := iter.beg, iter.end;
      SplitRun(str, delims, b, b, e);
      assert str[b..b] == [];
      calls := calls + [iter.Current()];
      iter.Next();
      SplitSkipDelims(str, delims, e, iter.beg);
    }
    assert str[iter.beg..] == [];
  }

  /** `IsInArray`: whether some element of `arr` equals `t`. */
  method IsInArray<T(==)>(arr: array<T>, t: T) returns (r: bool)
    ensures r <==> exists i :: 0 <= i < arr.Length && arr[i] == t
  {
    for i := 0 to arr.Length
      invariant forall k :: 0 <= k < i ==> arr[k] != t
    {
      if arr[i] == t {
        return true;
      }
    }
    return false;
  }

  // ---------------------------------------------------------------------------
  // Integer to decimal
  // ---------------------------------------------------------------------------

  const Int64Min: int := -0x8000_0000_0000_0000
  const Int64Max: int := 0x7FFF_FFFF_FFFF_FFFF
  const UInt64Max: int := 0xFFFF_FFFF_FFFF_FFFF

  type Int64 = x: int | -0x8000_0000_0000_0000 <= x <= 0x7FFF_FFFF_FFFF_FFFF
  type UInt64 = x: int | 0 <= x <= 0xFFFF_FFFF_FFFF_FFFF

  /** numeric_limits<int64_t>::digits10 and numeric_limits<uint64_t>::digits10. */
  const Int64Digits10: nat := 18
  const UInt64Digits10: nat := 19

  function Pow10(k: nat): (p: nat)
    ensures p >= 1
  {
    if k == 0 then 1 else 10 * Pow10(k - 1)
  }

  lemma {:induction false} Pow10Add(a: nat, b: nat)
    ensures Pow10(a + b) == Pow10(a) * Pow10(b)
  {
    if a > 0 {
      Pow10Add(a - 1, b);
    }
  }

  /** 10^18 and 10^19, the bounds the int64 and uint64 buffers impose. */
  lemma Pow10Bounds()
    ensures Pow10(Int64Digits10) == 1_000_000_000_000_000_000
    ensures Pow10(UInt64Digits10) == 10_000_000_000_000_000_000
  {
    assert Pow10(3) == 1000;
    assert Pow10(1) == 10;
    Pow10Add(3, 3);
    Pow10Add(6, 6);
    Pow10Add(12, 6);
    Pow10Add(18, 1);
  }

  /** The character of a decimal digit: `d + '0'`. */
  function DigitChar(d: nat): (c: char)
    requires d < 10
    ensures '0' <= c <= '9'
  {
    (d + '0' as int) as char
  }

  predicate IsDigit(c: char)
  {
    '0' <= c <= '9'
  }

  /** The decimal digits of n, most significant first, without leading zeros. */
  function Decimal(n: nat): (r: seq<char>)
    ensures |r| >= 1
    ensures forall k :: 0 <= k < |r| ==> IsDigit(r[k])
    decreases n
  {
    if n < 10 then [DigitChar(n)] else Decimal(n / 10) + [DigitChar(n % 10)]
  }

  /** The value of a string of decimal digits (the partner of Decimal). */
  function DecimalValue(ds: seq<char>): nat
    requires forall k :: 0 <= k < |ds| ==> IsDigit(ds[k])
  {
    if ds == [] then 0
    else
      assert IsDigit(ds[|ds| - 1]);
      10 * DecimalValue(ds[..|ds| - 1]) + (ds[|ds| - 1] as int - '0' as int)
  }

  /** Reading back the digits Decimal writes gives the number. */
  lemma {:induction false} DecimalRoundTrip(n: nat)
    ensures DecimalValue(Decimal(n)) == n
    decreases n
  {
    if n >= 10 {
      var ds := Decimal(n);
      assert ds[..|ds| - 1] == Decimal(n / 10);
      DecimalRoundTrip(n / 10);
    }
  }

  /** Only zero is written with a leading zero, and it is written "0". */
  lemma {:induction false} DecimalNoLeadingZero(n: nat)
    ensures Decimal(n)[0] == '0' <==> n == 0
    ensures n == 0 ==> Decimal(n) == ['0']
    decreases n
  {
    if n >= 10 {
      DecimalNoLeadingZero(n / 10);
    }
  }

  /** n has at most k digits exactly when n < 10^k. */
  lemma {:induction false} DecimalLength(n: nat, k: nat)
    requires k >= 1
    ensures |Decimal(n)| <= k <==> n < Pow10(k)
    decreases n
  {
    if n >= 10 {
      if k == 1 {
        assert |Decimal(n)| >= 2;
        assert Pow10(1) == 10;
      } else {
        DecimalLength(n / 10, k - 1);
      }
    } else {
      assert Pow10(k) >= 10 by { Pow10AtLeastTen(k); }
    }
  }

  lemma {:induction false} Pow10AtLeastTen(k: nat)
    requires k >= 1
    ensures Pow10(k) >= 10
  {
    if k > 1 {
      Pow10AtLeastTen(k - 1);
    }
  }

  /** The digits still to be written while `n` remains: none once `n` reaches zero. */
  function Leading(n: nat): seq<char>
  {
    if n == 0 then [] else Decimal(n)
  }

  /**
   * `to_string_digits`: writes the digits of `i` backwards into buf[..end],
   * always at least one digit, and returns the position of the first one.
   */
  method ToStringDigits(buf: array<char>, end: nat, i: nat) returns (beg: nat)
    requires end <= buf.Length
    requires |Decimal(i)| <= end
    modifies buf
    ensures beg == end - |Decimal(i)|
    ensures buf[beg..end] == Decimal(i)
    ensures forall k :: 0 <= k < buf.Length && !(beg <= k < end) ==> buf[k] == old(buf[k])
  {
    beg := end;
    var n := i;
    while true
      invariant n > 0 || beg == end
      invariant beg == end ==> n == i
      invariant |Decimal(n)| <= beg <= end
      invariant beg < end ==> Leading(n) + buf[beg..end] == Decimal(i)
      invariant forall k :: 0 <= k < buf.Length && !(beg <= k < end) ==> buf[k] == old(buf[k])
      decreases n
    {
      assert Decimal(n) == Leading(n / 10) + [DigitChar(n % 10)];
      beg := beg - 1;
      buf[beg] := DigitChar(n % 10);
      n := n / 10;
      if n == 0 {
        break;
      }
    }
  }

  /** The decimal form of an integer: a '-' exactly for negatives, then the digits of its magnitude. */
  function SignedDecimal(i: int): string
  {
    (if i < 0 then "-" else "") + Decimal(if i < 0 then -i else i)
  }

  /** The text SignedDecimal writes starts with '-' exactly for negatives, and reads back as `i`. */
  lemma SignedDecimalRoundTrip(i: int)
    ensures SignedDecimal(i)[0] == '-' <==> i < 0
    ensures i < 0 ==> DecimalValue(SignedDecimal(i)[1..]) == -i
    ensures i >= 0 ==> DecimalValue(SignedDecimal(i)) == i
  {
    var m := if i < 0 then -i else i;
    DecimalRoundTrip(m);
    assert IsDigit(Decimal(m)[0]);
    if i < 0 {
      assert SignedDecimal(i) == ['-'] + Decimal(m);
      assert SignedDecimal(i)[1..] == Decimal(m);
    } else {
      assert SignedDecimal(i) == Decimal(m);
    }
  }

  /** The buffer sizes as written: digits10 + 1 chars for int64, digits10 for uint64. */
  const SignedBufferSize: nat := Int64Digits10 + 1
  const UnsignedBufferSize: nat := UInt64Digits10

  /**
   * `to_string_signed<int64_t>` as written: the digits of |i| go at the end of a
   * 19-char buffer and '-' before them. A negative with 19 digits does not fit,
   * and `-i` overflows for INT64_MIN; both are excluded by the precondition.
   */
  method ToStringSigned(i: Int64) returns (r: string)
    requires i > 0 - Pow10(Int64Digits10)
    ensures r == SignedDecimal(i)
    ensures |r| <= SignedBufferSize
  {
    Pow10Bounds();
    var negative := i < 0;
    var buf := new char[SignedBufferSize];
    var end := SignedBufferSize;
    var magnitude: Int64 := if negative then -i else i;
    if negative {
      DecimalLength(magnitude, Int64Digits10);
    } else {
      DecimalLength(magnitude, UInt64Digits10);
    }
    var beg := ToStringDigits(buf, end, magnitude);
    if negative {
      beg := beg - 1;
      buf[beg] := '-';
    }
    r := buf[beg..end];
  }

  /**
   * `to_string_unsigned<uint64_t>` as written: the digits of i fill a 19-char
   * buffer from the end, so only values below 10^19 fit.
   */
  method ToStringUnsigned(i: UInt64) returns (r: string)
    requires i < Pow10(UInt64Digits10)
    ensures r == Decimal(i)
    ensures |r| <= UnsignedBufferSize
  {
    Pow10Bounds();
    var buf := new char[UnsignedBufferSize];
    var end := UnsignedBufferSize;
    DecimalLength(i, UInt64Digits10);
    var beg := ToStringDigits(buf, end, i);
    r := buf[beg..end];
  }

  /** -10^18 is an int64 whose text needs 20 chars, one more than the signed buffer holds. */
  lemma SignedBufferTooSmall()
    ensures Int64Min <= 0 - Pow10(Int64Digits10)
    ensures |SignedDecimal(0 - Pow10(Int64Digits10))| == SignedBufferSize + 1
  {
    Pow10Bounds();
    Pow10Add(Int64Digits10, 1);
    DecimalLength(Pow10(Int64Digits10), Int64Digits10 + 1);
    DecimalLength(Pow10(Int64Digits10), Int64Digits10);
  }

  /** 10^19 is a uint64 whose text needs 20 digits, one more than the unsigned buffer holds. */
  lemma UnsignedBufferTooSmall()
    ensures Pow10(UInt64Digits10) <= UInt64Max
    ensures |Decimal(Pow10(UInt64Digits10))| == UnsignedBufferSize + 1
  {
    Pow10Bounds();
    Pow10Add(UInt64Digits10, 1);
    DecimalLength(Pow10(UInt64Digits10), UInt64Digits10 + 1);
    DecimalLength(Pow10(UInt64Digits10), UInt64Digits10);
  }

  /** Negating INT64_MIN leaves the int64 range. */
  lemma NegatedInt64MinOverflows()
    ensures 0 - Int64Min > Int64Max
  {
  }

  /** A buffer of 20 chars holds the sign and all digits of every int64 and every uint64. */
  const WideBufferSize: nat := UInt64Digits10 + 1

  /** The corrected signed conversion: a 20-char buffer and the magnitude taken as uint64, so every int64 converts. */
  method ToStringSignedWide(i: Int64) returns (r: string)
    ensures r == SignedDecimal(i)
    ensures |r| <= WideBufferSize
  {
    Pow10Bounds();
    var negative := i < 0;
    var buf := new char[WideBufferSize];
    var end := WideBufferSize;
    var magnitude: UInt64 := if negative then 0 - i else i;
    Pow10Add(UInt64Digits10, 1);
    DecimalLength(magnitude, WideBufferSize - 1);
    var beg := ToStringDigits(buf, end, magnitude);
    if negative {
      beg := beg - 1;
      buf[beg] := '-';
    }
    r := buf[beg..end];
  }

  /** The corrected unsigned conversion: a 20-char buffer, so every uint64 converts. */
  method ToStringUnsignedWide(i: UInt64) returns (r: string)
    ensures r == Decimal(i)
    ensures |r| <= WideBufferSize
  {
    Pow10Bounds();
    Pow10Add(UInt64Digits10, 1);
    var buf := new char[WideBufferSize];
    var end := WideBufferSize;
    DecimalLength(i, WideBufferSize);
    var beg := ToStringDigits(buf, end, i);
    r := buf[beg..end];
  }
}
