/**
 * The helpers of utils/util.go: snake-casing of Go field names, slice
 * membership, and integer/decimal-string conversions.
 */
module Utils {
  import opened Wrappers
  import GoStrings
  import Strconv

  // ---------------------------------------------------------------------
  // ToSnakeCase: two regular-expression rewrites, then lower-casing.
  // ---------------------------------------------------------------------

  predicate IsUpper(c: char) { 'A' <= c <= 'Z' }
  predicate IsLower(c: char) { 'a' <= c <= 'z' }
  predicate IsDigit(c: char) { '0' <= c <= '9' }

  predicate NoUpper(s: string)
  {
    forall i :: 0 <= i < |s| ==> !IsUpper(s[i])
  }

  /** Length of the leading run of lower-case letters: what `[a-z]+` consumes greedily. */
  function LowerRun(s: string): (n: nat)
    ensures n <= |s|
    ensures forall i :: 0 <= i < n ==> IsLower(s[i])
    ensures n < |s| ==> !IsLower(s[n])
  {
    if s != [] && IsLower(s[0]) then 1 + LowerRun(s[1..]) else 0
  }

  /**
   * ReplaceAllString with `(.)([A-Z][a-z]+)` and `${1}_${2}`: scanning left to
   * right, a match starts at the first position holding a non-newline character
   * followed by a capital and a lower-case letter, extends over the whole run of
   * lower-case letters, and the scan resumes after it.
   */
  function FirstCapPass(s: string): string
    decreases |s|
  {
    if |s| >= 3 && s[0] != '\n' && IsUpper(s[1]) && IsLower(s[2]) then
      var e := 2 + LowerRun(s[2..]);
      [s[0], '_'] + s[1..e] + FirstCapPass(s[e..])
    else if s == [] then []
    else [s[0]] + FirstCapPass(s[1..])
  }

  /** ReplaceAllString with `([a-z0-9])([A-Z])` and `${1}_${2}`, non-overlapping, left to right. */
  function AllCapPass(s: string): string
    decreases |s|
  {
    if |s| >= 2 && (IsLower(s[0]) || IsDigit(s[0])) && IsUpper(s[1]) then
      [s[0], '_', s[1]] + AllCapPass(s[2..])
    else if s == [] then []
    else [s[0]] + AllCapPass(s[1..])
  }

  function LowerChar(c: char): char
  {
    if IsUpper(c) then (c as int - 'A' as int + 'a' as int) as char else c
  }

  /** strings.ToLower restricted to ASCII letters. */
  function Lower(s: string): (r: string)
    ensures |r| == |s|
    ensures forall i :: 0 <= i < |s| ==> r[i] == LowerChar(s[i])
  {
    if s == [] then [] else [LowerChar(s[0])] + Lower(s[1..])
  }

  function ToSnakeCase(s: string): string
  {
    Lower(AllCapPass(FirstCapPass(s)))
  }

  /** `s` with every underscore removed. */
  function Erase(s: string): string
  {
    if s == [] then [] else (if s[0] == '_' then [] else [s[0]]) + Erase(s[1..])
  }

  lemma {:induction false} EraseAppend(a: string, b: string)
    ensures Erase(a + b) == Erase(a) + Erase(b)
    decreases |a|
  {
    if a != [] {
      assert (a + b)[1..] == a[1..] + b;
      EraseAppend(a[1..], b);
    } else {
      assert a + b == b;
    }
  }

  /** The output of ToSnakeCase holds no upper-case ASCII letter. */
  lemma SnakeHasNoUpper(s: string)
    ensures NoUpper(ToSnakeCase(s))
  {
  }

  lemma {:induction false} FirstCapPassKeeps(s: string)
    requires NoUpper(s)
    ensures FirstCapPass(s) == s
    decreases |s|
  {
    if s != [] {
      FirstCapPassKeeps(s[1..]);
    }
  }

  lemma {:induction false} AllCapPassKeeps(s: string)
    requires NoUpper(s)
    ensures AllCapPass(s) == s
    decreases |s|
  {
    if s != [] {
      AllCapPassKeeps(s[1..]);
    }
  }

  /** A string with no upper-case letter is already in snake case and is returned unchanged. */
  lemma SnakeKeepsLowerCase(s: string)
    requires NoUpper(s)
    ensures ToSnakeCase(s) == s
  {
    FirstCapPassKeeps(s);
    AllCapPassKeeps(s);
    assert Lower(s) == s;
  }

  /** ToSnakeCase is idempotent. */
  lemma SnakeIdempotent(s: string)
    ensures ToSnakeCase(ToSnakeCase(s)) == ToSnakeCase(s)
  {
    SnakeKeepsLowerCase(ToSnakeCase(s));
  }

  lemma {:induction false} FirstCapPassOnlyInserts(s: string)
    ensures Erase(FirstCapPass(s)) == Erase(s)
    decreases |s|
  {
    if |s| >= 3 && s[0] != '\n' && IsUpper(s[1]) && IsLower(s[2]) {
      var e := 2 + LowerRun(s[2..]);
      FirstCapPassOnlyInserts(s[e..]);
      EraseAppend([s[0], '_'] + s[1..e], FirstCapPass(s[e..]));
      EraseAppend([s[0], '_'], s[1..e]);
      EraseAppend([s[0]], s[1..e]);
      EraseAppend(s[..e], s[e..]);
      assert [s[0]] + s[1..e] == s[..e];
      assert s[..e] + s[e..] == s;
    } else if s != [] {
      FirstCapPassOnlyInserts(s[1..]);
      EraseAppend([s[0]], FirstCapPass(s[1..]));
      EraseAppend([s[0]], s[1..]);
      assert [s[0]] + s[1..] == s;
    }
  }

  lemma {:induction false} AllCapPassOnlyInserts(s: string)
    ensures Erase(AllCapPass(s)) == Erase(s)
    decreases |s|
  {
    if |s| >= 2 && (IsLower(s[0]) || IsDigit(s[0])) && IsUpper(s[1]) {
      AllCapPassOnlyInserts(s[2..]);
      EraseAppend([s[0], '_', s[1]], AllCapPass(s[2..]));
      EraseAppend([s[0], s[1]], s[2..]);
      assert [s[0], s[1]] + s[2..] == s;
    } else if s != [] {
      AllCapPassOnlyInserts(s[1..]);
      EraseAppend([s[0]], AllCapPass(s[1..]));
      EraseAppend([s[0]], s[1..]);
      assert [s[0]] + s[1..] == s;
    }
  }

  lemma {:induction false} EraseLower(s: string)
    ensures Erase(Lower(s)) == Lower(Erase(s))
    decreases |s|
  {
    if s != [] {
      EraseLower(s[1..]);
      assert Lower(s) == [LowerChar(s[0])] + Lower(s[1..]);
      assert Lower(s)[1..] == Lower(s[1..]);
      if s[0] != '_' {
        assert Lower([s[0]] + Erase(s[1..]))[1..] == Lower(Erase(s[1..]));
      }
    }
  }

  /**
   * ToSnakeCase changes a name only by inserting underscores and lower-casing:
   * with the underscores removed, the result is the lower-cased input.
   */
  lemma SnakeOnlyInsertsUnderscores(s: string)
    ensures Erase(ToSnakeCase(s)) == Lower(Erase(s))
  {
    FirstCapPassOnlyInserts(s);
    AllCapPassOnlyInserts(FirstCapPass(s));
    EraseLower(AllCapPass(FirstCapPass(s)));
  }

  predicate LowerOrDigitBeforeUpper(s: string, i: nat)
  {
    i + 1 < |s| && (IsLower(s[i]) || IsDigit(s[i])) && IsUpper(s[i + 1])
  }

  lemma {:induction false} AllCapPassHead(s: string)
    requires s != []
    ensures AllCapPass(s) != [] && AllCapPass(s)[0] == s[0]
  {
  }

  /**
   * After the second rewrite no lower-case letter or digit is directly followed
   * by a capital: an underscore now separates every such pair.
   */
  lemma {:induction false} AllCapPassSeparates(s: string)
    ensures forall i :: 0 <= i < |AllCapPass(s)| ==> !LowerOrDigitBeforeUpper(AllCapPass(s), i)
    decreases |s|
  {
    var r := AllCapPass(s);
    if |s| >= 2 && (IsLower(s[0]) || IsDigit(s[0])) && IsUpper(s[1]) {
      AllCapPassSeparates(s[2..]);
      var t := AllCapPass(s[2..]);
      assert r == [s[0], '_', s[1]] + t;
      forall i | 0 <= i < |r| ensures !LowerOrDigitBeforeUpper(r, i) {
        if i >= 3 {
          assert LowerOrDigitBeforeUpper(r, i) ==> LowerOrDigitBeforeUpper(t, i - 3);
        }
      }
    } else if s != [] {
      AllCapPassSeparates(s[1..]);
      var t := AllCapPass(s[1..]);
      assert r == [s[0]] + t;
      forall i | 0 <= i < |r| ensures !LowerOrDigitBeforeUpper(r, i) {
        if i >= 1 {
          assert LowerOrDigitBeforeUpper(r, i) ==> LowerOrDigitBeforeUpper(t, i - 1);
        } else if |s| >= 2 {
          AllCapPassHead(s[1..]);
        }
      }
    }
  }

  // ---------------------------------------------------------------------
  // Membership search.
  // ---------------------------------------------------------------------

  /** The dynamic kind of InArray's second argument: a slice, or anything else. */
  datatype Container<T> = Slice(elems: seq<T>) | NotSlice

  /**
   * InArray: the first index holding `val` (reflect.DeepEqual is modelled as
   * value equality on one element type), or (false, -1).
   */
  method InArray<T(==)>(val: T, arr: Container<T>) returns (found: bool, index: int)
    ensures found <==> arr.Slice? && val in arr.elems
    ensures found ==> 0 <= index < |arr.elems| && arr.elems[index] == val
    ensures found ==> forall j :: 0 <= j < index ==> arr.elems[j] != val
    ensures !found ==> index == -1
  {
    found := false;
    index := -1;
    if arr.Slice? {
      var s := arr.elems;
      var i := 0;
      while i < |s|
        invariant 0 <= i <= |s|
        invariant forall j :: 0 <= j < i ==> s[j] != val
      {
        if val == s[i] {
          index := i;
          found := true;
          return;
        }
        i := i + 1;
      }
    }
  }

  /** StringInSlice: whether `a` occurs in `list`. */
  method StringInSlice(a: string, list: seq<string>) returns (r: bool)
    ensures r <==> a in list
  {
    for i := 0 to |list|
      invariant forall j :: 0 <= j < i ==> list[j] != a
    {
      if list[i] == a {
        return true;
      }
    }
    return false;
  }

  // ---------------------------------------------------------------------
  // Integer <-> decimal string.
  // ---------------------------------------------------------------------

  /** Int64ToStr: strconv.FormatInt(x, 10). */
  function Int64ToStr(x: Strconv.Int64): (s: string)
    ensures forall i :: 0 <= i < |s| ==> IsDigit(s[i]) || s[i] == '-'
  {
    Strconv.FormatInt(x)
  }

  /** StrToInt64: ParseInt(s, 10, 64), or 0 when it reports any error (a clamped value is dropped too). */
  function StrToInt64(s: string): (r: Strconv.Int64)
    ensures Strconv.ParseInt(s, 10, 64).err.Some? ==> r == 0
    ensures Strconv.ParseInt(s, 10, 64).err.None? ==> r == Strconv.ParseInt(s, 10, 64).value
  {
    Strconv.ParseIntInRange(s, 10, 64);
    Strconv.Pow2Facts();
    var p := Strconv.ParseInt(s, 10, 64);
    if p.err.Some? then 0 else p.value
  }

  /** StrToInt: strconv.Atoi(s), or 0 on any error. */
  function StrToInt(s: string): (r: Strconv.Int64)
    ensures Strconv.Atoi(s).err.Some? ==> r == 0
    ensures Strconv.Atoi(s).err.None? ==> r == Strconv.Atoi(s).value
  {
    Strconv.ParseIntInRange(s, 10, 0);
    Strconv.Pow2Facts();
    var p := Strconv.Atoi(s);
    if p.err.Some? then 0 else p.value
  }

  /** StrToInt64 reads back what Int64ToStr writes. */
  lemma StrToInt64RoundTrip(x: Strconv.Int64)
    ensures StrToInt64(Int64ToStr(x)) == x
  {
    Strconv.FormatParseRoundTrip(x);
  }

  /** The decimal strings JoinInt64Array joins. */
  function Int64Strings(lns: seq<Strconv.Int64>): (strs: seq<string>)
    ensures |strs| == |lns|
    ensures forall i :: 0 <= i < |lns| ==> strs[i] == Int64ToStr(lns[i])
  {
    if lns == [] then [] else [Int64ToStr(lns[0])] + Int64Strings(lns[1..])
  }

  /** JoinInt64Array: fills a slice with Int64ToStr of each element, then joins it with `sep`. */
  method JoinInt64Array(lns: seq<Strconv.Int64>, sep: string) returns (r: string)
    ensures r == GoStrings.Join(Int64Strings(lns), sep)
    ensures lns == [] ==> r == ""
  {
    var lnsStr := new string[|lns|];
    for ndx := 0 to |lns|
      invariant forall j :: 0 <= j < ndx ==> lnsStr[j] == Int64ToStr(lns[j])
    {
      lnsStr[ndx] := Int64ToStr(lns[ndx]);
    }
    assert lnsStr[..] == Int64Strings(lns);
    r := GoStrings.Join(lnsStr[..], sep);
  }

  /**
   * Splitting a JoinInt64Array result on a separator that is neither a digit
   * nor '-' and decoding each piece gives back the numbers.
   */
  lemma JoinInt64ArrayRoundTrip(lns: seq<Strconv.Int64>, sep: char)
    requires |lns| >= 1
    requires !IsDigit(sep) && sep != '-'
    ensures var pieces := GoStrings.Split(GoStrings.Join(Int64Strings(lns), [sep]), sep);
      |pieces| == |lns| && forall i :: 0 <= i < |lns| ==> StrToInt64(pieces[i]) == lns[i]
  {
    var strs := Int64Strings(lns);
    forall i | 0 <= i < |strs| ensures sep !in strs[i] {
      var s := strs[i];
      assert forall k :: 0 <= k < |s| ==> s[k] != sep;
    }
    GoStrings.SplitJoin(strs, sep);
    forall i | 0 <= i < |lns| ensures StrToInt64(strs[i]) == lns[i] {
      StrToInt64RoundTrip(lns[i]);
    }
  }

  /** ParseInt: strconv.ParseInt's value, and `flag` set exactly when it reports an error. */
  method ParseInt(str: string, base: int, bitSize: int) returns (i: int, flag: bool)
    requires base != 0
    ensures flag <==> Strconv.ParseInt(str, base, bitSize).err.Some?
    ensures i == Strconv.ParseInt(str, base, bitSize).value
    ensures 1 <= Strconv.EffectiveBits(bitSize) <= 64 ==>
      -(Strconv.Pow2(Strconv.EffectiveBits(bitSize) - 1) as int) <= i < Strconv.Pow2(Strconv.EffectiveBits(bitSize) - 1)
  {
    var r := Strconv.ParseInt(str, base, bitSize);
    if 1 <= Strconv.EffectiveBits(bitSize) <= 64 {
      Strconv.ParseIntInRange(str, base, bitSize);
    }
    if r.err.Some? {
      return r.value, true;
    }
    return r.value, false;
  }
}
