/** The parts of java.lang.String and java.lang.Character that the modelled code relies on. */
module JavaStrings {

  /** `t` occurs in `s` starting at index `i`. */
  predicate OccursAt(s: string, t: string, i: int)
  {
    0 <= i && i + |t| <= |s| && s[i..i + |t|] == t
  }

  /** `String.startsWith`. */
  predicate StartsWith(s: string, prefix: string)
  {
    |prefix| <= |s| && s[..|prefix|] == prefix
  }

  /** `String.indexOf(t, from)`: the first occurrence of `t` at or after `from`, or -1. */
  function IndexOfFrom(s: string, t: string, from: nat): (r: int)
    requires from <= |s|
    ensures r == -1 || (from <= r && OccursAt(s, t, r))
    ensures r != -1 ==> forall j :: from <= j < r ==> !OccursAt(s, t, j)
    ensures r == -1 ==> forall j :: from <= j ==> !OccursAt(s, t, j)
    decreases |s| - from
  {
    if from + |t| > |s| then -1
    else if s[from..from + |t|] == t then from
    else if from == |s| then -1
    else IndexOfFrom(s, t, from + 1)
  }

  /** `String.indexOf(t)`. */
  function IndexOf(s: string, t: string): int
  {
    IndexOfFrom(s, t, 0)
  }

  /** `String.contains(t)`. */
  predicate Contains(s: string, t: string)
  {
    IndexOf(s, t) != -1
  }

  /** Looking for a one-character string is looking for that character. */
  lemma {:induction false} IndexOfChar(s: string, c: char)
    ensures IndexOf(s, [c]) == -1 <==> c !in s
    ensures IndexOf(s, [c]) != -1 ==> s[IndexOf(s, [c])] == c && c !in s[..IndexOf(s, [c])]
  {
    var r := IndexOf(s, [c]);
    if c in s {
      var k :| 0 <= k < |s| && s[k] == c;
      assert s[k..k + 1] == [c];
      assert OccursAt(s, [c], k);
    }
    if r != -1 {
      assert s[r..r + 1] == [c];
      assert s[r] == c;
      forall j | 0 <= j < r
        ensures s[..r][j] != c
      {
        assert !OccursAt(s, [c], j);
        assert s[j..j + 1] == [s[j]];
      }
    }
  }

  /** `Character.toLowerCase` on the ASCII letters; other characters are unchanged. */
  function ToLowerAscii(c: char): (r: char)
    ensures 'A' <= c <= 'Z' ==> 'a' <= r <= 'z' && r as int - c as int == 32
    ensures !('A' <= c <= 'Z') ==> r == c
  {
    if 'A' <= c <= 'Z' then (c as int + 32) as char else c
  }

  /** The inverse direction, used to build accessor names from property names. */
  function ToUpperAscii(c: char): (r: char)
    ensures 'a' <= c <= 'z' ==> 'A' <= r <= 'Z' && c as int - r as int == 32
    ensures !('a' <= c <= 'z') ==> r == c
  {
    if 'a' <= c <= 'z' then (c as int - 32) as char else c
  }

  function DigitChar(d: nat): (r: char)
    requires d < 10
    ensures '0' <= r <= '9'
  {
    ('0' as int + d) as char
  }

  /** The decimal digits of `n`, most significant first, without leading zeros. */
  function Digits(n: nat): (r: string)
    ensures 1 <= |r|
    ensures forall i :: 0 <= i < |r| ==> '0' <= r[i] <= '9'
    ensures |r| > 1 ==> r[0] != '0'
    decreases n
  {
    if n < 10 then [DigitChar(n)] else Digits(n / 10) + [DigitChar(n % 10)]
  }

  /** `Integer.toString` / `Long.toString`. */
  function IntToDecimal(n: int): (r: string)
    ensures r != []
    ensures n < 0 <==> r[0] == '-'
  {
    if n < 0 then "-" + Digits(-n) else Digits(n)
  }

  /** The pieces of `s` between occurrences of `sep`, including empty ones. */
  function Fields(s: string, sep: char): (r: seq<string>)
    ensures |r| >= 1
    ensures forall i :: 0 <= i < |r| ==> sep !in r[i]
    decreases |s|
  {
    if s == [] then [""]
    else
      var rest := Fields(s[1..], sep);
      if s[0] == sep then [""] + rest
      else [[s[0]] + rest[0]] + rest[1..]
  }

  /** Drops the empty strings at the end of `parts`. */
  function StripTrailingEmpty(parts: seq<string>): (r: seq<string>)
    ensures |r| <= |parts| && r == parts[..|r|]
    ensures r != [] ==> r[|r| - 1] != ""
    ensures forall i :: |r| <= i < |parts| ==> parts[i] == ""
  {
    if parts == [] then []
    else if parts[|parts| - 1] == "" then StripTrailingEmpty(parts[..|parts| - 1])
    else parts
  }

  /**
   * `String.split` with a one-character separator and no limit: a string without the
   * separator is returned whole, otherwise the pieces with trailing empty ones removed.
   */
  function Split(s: string, sep: char): (r: seq<string>)
    ensures sep !in s ==> r == [s]
    ensures forall i :: 0 <= i < |r| ==> sep !in r[i]
  {
    if sep !in s then [s] else StripTrailingEmpty(Fields(s, sep))
  }

  /** Without a separator, `Fields` yields the whole string. */
  lemma {:induction false} FieldsNoSeparator(u: string, sep: char)
    requires sep !in u
    ensures Fields(u, sep) == [u]
    decreases |u|
  {
    if u != [] {
      FieldsNoSeparator(u[1..], sep);
      assert [u[0]] + u[1..] == u;
    }
  }

  /** `Fields` of `u + [sep] + k` is `[u, k]` when neither part holds the separator. */
  lemma {:induction false} FieldsOfJoin(u: string, k: string, sep: char)
    requires sep !in u && sep !in k
    ensures Fields(u + [sep] + k, sep) == [u, k]
    decreases |u|
  {
    var s := u + [sep] + k;
    if u == [] {
      assert s[0] == sep && s[1..] == k;
      FieldsNoSeparator(k, sep);
    } else {
      assert s[0] == u[0] && s[1..] == u[1..] + [sep] + k;
      FieldsOfJoin(u[1..], k, sep);
      assert [u[0]] + u[1..] == u;
    }
  }

  /** `Fields` of `u + [sep] + k + [sep]` is `[u, k, ""]`. */
  lemma {:induction false} FieldsOfJoinTrailing(u: string, k: string, sep: char)
    requires sep !in u && sep !in k
    ensures Fields(u + [sep] + k + [sep], sep) == [u, k, ""]
    decreases |u|
  {
    var s := u + [sep] + k + [sep];
    if u == [] {
      assert s[0] == sep && s[1..] == k + [sep];
      FieldsOfSuffixSeparator(k, sep);
    } else {
      assert s[0] == u[0] && s[1..] == u[1..] + [sep] + k + [sep];
      FieldsOfJoinTrailing(u[1..], k, sep);
      assert [u[0]] + u[1..] == u;
    }
  }

  lemma {:induction false} FieldsOfSuffixSeparator(k: string, sep: char)
    requires sep !in k
    ensures Fields(k + [sep], sep) == [k, ""]
    decreases |k|
  {
    var s := k + [sep];
    if k == [] {
      assert s == [sep] && s[1..] == [];
    } else {
      assert s[0] == k[0] && s[1..] == k[1..] + [sep];
      FieldsOfSuffixSeparator(k[1..], sep);
      assert [k[0]] + k[1..] == k;
    }
  }
}
