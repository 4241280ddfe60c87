/** The string operations of Go's `strings` and `strconv` packages that the driver relies on. */
module Strings {

  datatype Option<+T> = None | Some(value: T)

  /** `sub` occurs in `s` at index `i`. */
  predicate At(s: string, sub: string, i: int) {
    0 <= i && i + |sub| <= |s| && s[i..i + |sub|] == sub
  }

  ghost predicate Contains(s: string, sub: string) {
    exists i :: At(s, sub, i)
  }

  predicate HasPrefix(s: string, prefix: string) {
    |prefix| <= |s| && s[..|prefix|] == prefix
  }

  predicate HasSuffix(s: string, suffix: string) {
    |suffix| <= |s| && s[|s| - |suffix|..] == suffix
  }

  lemma AtChar(s: string, sub: string, i: int, k: nat)
    ensures At(s, sub, i) && k < |sub| ==> s[i + k] == sub[k]
  {
    if At(s, sub, i) && k < |sub| { assert s[i..i + |sub|][k] == s[i + k]; }
  }

  /** Leftmost occurrence of `sub` at or after `i`, or -1. */
  function IndexFrom(s: string, sub: string, i: nat): (r: int)
    requires i <= |s|
    ensures r == -1 || i <= r
    ensures r != -1 ==> At(s, sub, r)
    decreases |s| - i
  {
    if At(s, sub, i) then i
    else if i == |s| then -1
    else IndexFrom(s, sub, i + 1)
  }

  /** Go's `strings.Index`. */
  function Index(s: string, sub: string): (r: int)
    ensures -1 <= r
    ensures r != -1 ==> At(s, sub, r)
  {
    IndexFrom(s, sub, 0)
  }

  lemma {:induction false} IndexFromIsLeast(s: string, sub: string, i: nat, j: int)
    requires i <= |s| && i <= j && At(s, sub, j)
    ensures 0 <= IndexFrom(s, sub, i) <= j
    decreases |s| - i
  {
    if !At(s, sub, i) { IndexFromIsLeast(s, sub, i + 1, j); }
  }

  lemma IndexIsLeast(s: string, sub: string, j: int)
    requires At(s, sub, j)
    ensures 0 <= Index(s, sub) <= j
  {
    IndexFromIsLeast(s, sub, 0, j);
  }

  lemma NotContained(s: string, sub: string)
    ensures Index(s, sub) == -1 <==> !Contains(s, sub)
  {
    if Contains(s, sub) {
      var j :| At(s, sub, j);
      IndexIsLeast(s, sub, j);
    }
  }

  /** Go's `strings.Split` for a non-empty separator. */
  function Split(s: string, sep: string): (tokens: seq<string>)
    requires sep != ""
    ensures 1 <= |tokens|
    decreases |s|
  {
    var i := Index(s, sep);
    if i == -1 then [s] else [s[..i]] + Split(s[i + |sep|..], sep)
  }

  /** Go's `strings.Join`. */
  function Join(parts: seq<string>, sep: string): string {
    if parts == [] then ""
    else if |parts| == 1 then parts[0]
    else parts[0] + sep + Join(parts[1..], sep)
  }

  lemma CutAt(s: string, sep: string, i: int)
    requires At(s, sep, i)
    ensures s == s[..i] + sep + s[i + |sep|..]
  {
    assert s == s[..i] + s[i..i + |sep|] + s[i + |sep|..];
  }

  lemma {:induction false} TokensAreSeparatorFree(s: string, sep: string, k: nat)
    requires sep != "" && k < |Split(s, sep)|
    ensures !Contains(Split(s, sep)[k], sep)
    decreases |s|
  {
    var i := Index(s, sep);
    if i == -1 {
      if Contains(s, sep) {
        var j :| At(s, sep, j);
        IndexIsLeast(s, sep, j);
      }
    } else if k == 0 {
      PrefixBeforeFirst(s, sep);
    } else {
      TokensAreSeparatorFree(s[i + |sep|..], sep, k - 1);
    }
  }

  lemma PrefixBeforeFirst(s: string, sep: string)
    requires sep != "" && Index(s, sep) != -1
    ensures !Contains(s[..Index(s, sep)], sep)
  {
    var i := Index(s, sep);
    if Contains(s[..i], sep) {
      var j :| At(s[..i], sep, j);
      assert s[..i][j..j + |sep|] == s[j..j + |sep|];
      IndexIsLeast(s, sep, j);
    }
  }

  /** The first separator met in `field + sep` is the appended one: nothing inside `field`, and nothing
      straddling the boundary. */
  ghost predicate Sealed(field: string, sep: string) {
    Index(field + sep, sep) == |field|
  }

  /** Whether a field is sealed does not depend on what follows the separator. */
  lemma SealedMeansFirst(field: string, sep: string, rest: string)
    requires sep != ""
    ensures 0 <= Index(field + sep + rest, sep) <= |field|
    ensures Sealed(field, sep) <==> Index(field + sep + rest, sep) == |field|
  {
    var s, t := field + sep + rest, field + sep;
    var i, k := Index(s, sep), Index(t, sep);
    assert At(t, sep, |field|);
    assert s[|field|..|field| + |sep|] == sep;
    IndexIsLeast(s, sep, |field|);
    IndexIsLeast(t, sep, |field|);
    assert s[k..k + |sep|] == t[k..k + |sep|];
    IndexIsLeast(s, sep, k);
    assert t[i..i + |sep|] == s[i..i + |sep|];
    IndexIsLeast(t, sep, i);
  }

  ghost predicate SealedFields(fields: seq<string>, sep: string)
    requires fields != []
  {
    if |fields| == 1 then Index(fields[0], sep) == -1
    else Sealed(fields[0], sep) && SealedFields(fields[1..], sep)
  }

  /** Splitting undoes joining exactly for sealed fields; any separator, any number of fields. */
  lemma {:induction false} SplitAfterJoin(fields: seq<string>, sep: string)
    requires sep != "" && fields != []
    ensures Split(Join(fields, sep), sep) == fields <==> SealedFields(fields, sep)
  {
    if |fields| > 1 {
      var rest := Join(fields[1..], sep);
      var s := fields[0] + sep + rest;
      SplitAfterJoin(fields[1..], sep);
      SealedMeansFirst(fields[0], sep, rest);
      var i := Index(s, sep);
      if i == |fields[0]| {
        assert s[..i] == fields[0] && s[i + |sep|..] == rest;
        assert Split(s, sep) == [fields[0]] + Split(rest, sep);
        assert fields == [fields[0]] + fields[1..];
        assert Split(s, sep)[1..] == Split(rest, sep);
      } else {
        assert |Split(s, sep)[0]| < |fields[0]|;
      }
    } else {
      assert Join(fields, sep) == fields[0];
      if Index(fields[0], sep) != -1 {
        assert |Split(fields[0], sep)| > 1;
      }
    }
  }

  /** For a one-character separator a field is sealed when the character is absent. */
  lemma SealedByOneChar(field: string, c: char)
    ensures Sealed(field, [c]) <==> c !in field
    ensures Index(field, [c]) == -1 <==> c !in field
  {
    var t := field + [c];
    assert At(t, [c], |field|);
    IndexIsLeast(t, [c], |field|);
    var i, k := Index(t, [c]), Index(field, [c]);
    assert t[i..i + 1][0] == t[i];
    if k != -1 { assert field[k..k + 1][0] == field[k]; }
    if c in field {
      var j :| 0 <= j < |field| && field[j] == c;
      assert field[j..j + 1] == [c] && t[j..j + 1] == [c];
      IndexIsLeast(field, [c], j);
      IndexIsLeast(t, [c], j);
    }
  }

  ghost predicate FreeOf(fields: seq<string>, c: char) {
    forall k :: 0 <= k < |fields| ==> c !in fields[k]
  }

  lemma {:induction false} SealedFieldsByOneChar(fields: seq<string>, c: char)
    requires fields != []
    ensures SealedFields(fields, [c]) <==> FreeOf(fields, c)
  {
    SealedByOneChar(fields[0], c);
    if |fields| > 1 {
      SealedFieldsByOneChar(fields[1..], c);
      if FreeOf(fields[1..], c) && c !in fields[0] {
        forall k | 0 <= k < |fields| ensures c !in fields[k] {
          if k > 0 { assert fields[k] == fields[1..][k - 1]; }
        }
      }
    }
  }

  /** `Split` on one character undoes `Join` exactly when no field holds that character. */
  lemma SplitAfterJoinChar(fields: seq<string>, c: char)
    requires fields != []
    ensures Split(Join(fields, [c]), [c]) == fields <==> FreeOf(fields, c)
  {
    SplitAfterJoin(fields, [c]);
    SealedFieldsByOneChar(fields, c);
  }

  lemma {:induction false} JoinAppend(a: seq<string>, b: seq<string>, sep: string)
    requires a != [] && b != []
    ensures Join(a + b, sep) == Join(a, sep) + sep + Join(b, sep)
  {
    if |a| == 1 {
      assert (a + b)[1..] == b;
    } else {
      assert (a + b)[1..] == a[1..] + b;
      JoinAppend(a[1..], b, sep);
    }
  }

  lemma SplitFirst(field: string, c: char, rest: string)
    requires c !in field
    ensures Split(field + [c] + rest, [c]) == [field] + Split(rest, [c])
    ensures Split(field, [c]) == [field]
  {
    var s := field + [c] + rest;
    SealedByOneChar(field, c);
    SealedMeansFirst(field, [c], rest);
    assert s[..|field|] == field && s[|field| + 1..] == rest;
  }

  /** Splitting on one character distributes over a text cut at that character. */
  lemma {:induction false} SplitAtChar(a: string, c: char, b: string)
    ensures Split(a + [c] + b, [c]) == Split(a, [c]) + Split(b, [c])
    decreases |a|
  {
    var j := Index(a, [c]);
    SealedByOneChar(a, c);
    if j == -1 {
      SplitFirst(a, c, b);
    } else {
      var head, tail := a[..j], a[j + 1..];
      PrefixBeforeFirst(a, [c]);
      SealedByOneChar(head, c);
      NotContained(head, [c]);
      CutAt(a, [c], j);
      SplitAtChar(tail, c, b);
      SplitAtCharStep(head, tail, c, b);
    }
  }

  lemma Reassociate(head: string, c: string, tail: string, b: string)
    ensures head + c + tail + c + b == head + c + (tail + c + b)
  {
  }

  lemma SplitAtCharStep(head: string, tail: string, c: char, b: string)
    requires c !in head && Split(tail + [c] + b, [c]) == Split(tail, [c]) + Split(b, [c])
    ensures Split(head + [c] + tail + [c] + b, [c]) == Split(head + [c] + tail, [c]) + Split(b, [c])
  {
    var left, right := Split(tail, [c]), Split(b, [c]);
    Reassociate(head, [c], tail, b);
    assert Split(head + [c] + tail + [c] + b, [c]) == [head] + (left + right) by {
      SplitFirst(head, c, tail + [c] + b);
    }
    assert Split(head + [c] + tail, [c]) == [head] + left by {
      SplitFirst(head, c, tail);
    }
  }

  // ---- numbers ----

  const MAX_INT64: int := 0x7FFF_FFFF_FFFF_FFFF
  const MIN_INT64: int := -0x8000_0000_0000_0000

  predicate IsInt64(n: int) { MIN_INT64 <= n <= MAX_INT64 }

  function Digit(d: nat): (c: char)
    requires d < 10
    ensures '0' <= c <= '9' && c as int == '0' as int + d
  {
    ('0' as int + d) as char
  }

  function Digits(n: nat): (s: string)
    ensures s != "" && forall k :: 0 <= k < |s| ==> '0' <= s[k] <= '9'
  {
    if n < 10 then [Digit(n)] else Digits(n / 10) + [Digit(n % 10)]
  }

  /** Go's `strconv.Itoa`. */
  function Itoa(n: int): (s: string)
    ensures s != "" && forall k :: 0 <= k < |s| ==> s[k] == '-' || '0' <= s[k] <= '9'
  {
    if n < 0 then "-" + Digits(-n) else Digits(n)
  }

  function ParseDigits(s: string): (r: Option<nat>) {
    if s == "" || !('0' <= s[|s| - 1] <= '9') then None
    else
      var d := s[|s| - 1] as int - '0' as int;
      if |s| == 1 then Some(d)
      else match ParseDigits(s[..|s| - 1])
           case None => None
           case Some(n) => Some(10 * n + d)
  }

  /** Go's `strconv.Atoi` and `ParseInt(s, 10, 64)`: an optional sign, at least one digit, 64-bit range. */
  function Atoi(s: string): (r: Option<int>)
    ensures r.Some? ==> IsInt64(r.value)
  {
    var signed := s != "" && (s[0] == '-' || s[0] == '+');
    match ParseDigits(if signed then s[1..] else s)
    case None => None
    case Some(n) =>
      var v: int := if signed && s[0] == '-' then 0 - n else n;
      if IsInt64(v) then Some(v) else None
  }

  lemma {:induction false} ParseDigitsOfDigits(n: nat)
    ensures ParseDigits(Digits(n)) == Some(n)
  {
    if n >= 10 {
      ParseDigitsOfDigits(n / 10);
      assert Digits(n)[..|Digits(n)| - 1] == Digits(n / 10);
    }
  }

  lemma AtoiOfItoa(n: int)
    ensures Atoi(Itoa(n)) == if IsInt64(n) then Some(n) else None
    ensures n >= 0 ==> Atoi("+" + Itoa(n)) == Atoi(Itoa(n))
  {
    ParseDigitsOfDigits(if n < 0 then -n else n);
    if n < 0 { assert Itoa(n)[1..] == Digits(-n); }
    assert ("+" + Itoa(n))[1..] == Itoa(n);
  }

  // ---- white space ----

  /** Go's `unicode.IsSpace`. */
  predicate IsSpace(c: char) {
    var n := c as int;
    9 <= n <= 13 || n == 0x20 || n == 0x85 || n == 0xA0 || n == 0x1680 || 0x2000 <= n <= 0x200A
    || n == 0x2028 || n == 0x2029 || n == 0x202F || n == 0x205F || n == 0x3000
  }

  predicate EndsInSpace(s: string) {
    s != "" && IsSpace(s[|s| - 1])
  }

  function TrimRight(s: string): (r: string)
    ensures r <= s && !EndsInSpace(r)
    ensures forall k :: |r| <= k < |s| ==> IsSpace(s[k])
  {
    if EndsInSpace(s) then TrimRight(s[..|s| - 1]) else s
  }

  function TrimLeft(s: string): (r: string) {
    if s != "" && IsSpace(s[0]) then TrimLeft(s[1..]) else s
  }

  lemma {:induction false} TrimLeftKeepsEnd(s: string)
    requires !EndsInSpace(s)
    ensures !EndsInSpace(TrimLeft(s)) && (TrimLeft(s) != "" ==> !IsSpace(TrimLeft(s)[0]))
  {
    if s != "" && IsSpace(s[0]) { TrimLeftKeepsEnd(s[1..]); }
  }

  /** Nothing is left to trim at either end. */
  lemma TrimSpaceTrimsBothEnds(s: string)
    ensures !EndsInSpace(TrimSpace(s)) && (TrimSpace(s) != "" ==> !IsSpace(TrimSpace(s)[0]))
  {
    TrimLeftKeepsEnd(TrimRight(s));
  }

  /** Go's `strings.TrimSpace`. */
  function TrimSpace(s: string): (r: string) {
    TrimLeft(TrimRight(s))
  }
}
