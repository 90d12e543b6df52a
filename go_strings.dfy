/**
 * Go's byte strings and the parts of package `strings` the core uses.
 *
 * A Go string is a sequence of bytes and `len` counts bytes; it is modelled as a
 * Dafny `string` whose every character stands for one byte, so `|s|` is Go's
 * `len(s)`, `s[i]` is Go's `s[i]` and slicing agrees with Go's slicing.
 * Case mapping and white space follow Go's behaviour on ASCII bytes.
 */
module GoStrings {

  // ---------------------------------------------------------------- case

  predicate IsUpper(c: char) { 'A' <= c <= 'Z' }

  /** `unicode.ToLower` on an ASCII byte. */
  function LowerChar(c: char): (r: char)
    ensures !IsUpper(r)
    ensures !IsUpper(c) ==> r == c
  {
    if IsUpper(c) then (c as int + 32) as char else c
  }

  /** `strings.ToLower`: lower-cases every ASCII letter and keeps the length. */
  function ToLower(s: string): (r: string)
    ensures |r| == |s|
    ensures forall i :: 0 <= i < |s| ==> r[i] == LowerChar(s[i])
  {
    seq(|s|, i requires 0 <= i < |s| => LowerChar(s[i]))
  }

  predicate NoUpper(s: string) { forall i :: 0 <= i < |s| ==> !IsUpper(s[i]) }

  lemma LowerHasNoUpper(s: string)
    ensures NoUpper(ToLower(s))
  {
  }

  /** A string without upper-case letters is its own lower-case form. */
  lemma LowerOfLower(s: string)
    requires NoUpper(s)
    ensures ToLower(s) == s
  {
  }

  /** `strings.EqualFold` on ASCII text. */
  predicate EqualFold(a: string, b: string) { ToLower(a) == ToLower(b) }

  // ---------------------------------------------------------------- white space

  /** The ASCII bytes `unicode.IsSpace` accepts. */
  predicate IsSpace(c: char) {
    c == ' ' || c == '\t' || c == '\n' || c == '\r' || c == '\U{B}' || c == '\U{C}'
  }

  function TrimLeft(s: string): string
    decreases |s|
  {
    if |s| > 0 && IsSpace(s[0]) then TrimLeft(s[1..]) else s
  }

  function TrimRight(s: string): string
    decreases |s|
  {
    if |s| > 0 && IsSpace(s[|s| - 1]) then TrimRight(s[..|s| - 1]) else s
  }

  /** `strings.TrimSpace`. */
  function TrimSpace(s: string): string {
    TrimRight(TrimLeft(s))
  }

  /** Neither end of `s` is white space. */
  predicate IsTrimmed(s: string) {
    s == [] || (!IsSpace(s[0]) && !IsSpace(s[|s| - 1]))
  }

  /** TrimLeft drops the leading white space and nothing else. */
  lemma {:induction false} TrimLeftIsSuffix(s: string)
    ensures var r := TrimLeft(s);
            && |r| <= |s| && r == s[|s| - |r|..]
            && (r == [] || !IsSpace(r[0]))
            && forall i :: 0 <= i < |s| - |r| ==> IsSpace(s[i])
    decreases |s|
  {
    if |s| > 0 && IsSpace(s[0]) {
      TrimLeftIsSuffix(s[1..]);
    }
  }

  /** TrimRight drops the trailing white space and nothing else. */
  lemma {:induction false} TrimRightIsPrefix(s: string)
    ensures var r := TrimRight(s);
            && |r| <= |s| && r == s[..|r|]
            && (r == [] || !IsSpace(r[|r| - 1]))
            && forall i :: |r| <= i < |s| ==> IsSpace(s[i])
    decreases |s|
  {
    if |s| > 0 && IsSpace(s[|s| - 1]) {
      TrimRightIsPrefix(s[..|s| - 1]);
    }
  }

  /** TrimSpace keeps a contiguous part of `s`. */
  lemma TrimSpaceIsInfix(s: string)
    ensures exists i, j :: 0 <= i <= j <= |s| && TrimSpace(s) == s[i..j]
  {
    TrimLeftIsSuffix(s);
    var l := TrimLeft(s);
    TrimRightIsPrefix(l);
    var i := |s| - |l|;
    var j := i + |TrimRight(l)|;
    assert TrimSpace(s) == s[i..j];
  }

  /** Every byte of TrimSpace(s) is a byte of s. */
  lemma TrimSpaceKeepsOut(s: string, c: char)
    requires c !in s
    ensures c !in TrimSpace(s)
  {
    TrimSpaceIsInfix(s);
  }

  lemma TrimLeftOfNonSpace(s: string)
    requires s == [] || !IsSpace(s[0])
    ensures TrimLeft(s) == s
  {
  }

  /** TrimSpace removes white space at both ends and leaves a trimmed string. */
  lemma TrimSpaceIsTrimmed(s: string)
    ensures IsTrimmed(TrimSpace(s))
  {
    var l := TrimLeft(s);
    TrimLeftIsSuffix(s);
    TrimRightIsPrefix(l);
    var r := TrimRight(l);
    if r != [] {
      assert r[0] == l[0];
    }
  }

  /** A trimmed string is left alone by TrimSpace. */
  lemma TrimSpaceOfTrimmed(s: string)
    requires IsTrimmed(s)
    ensures TrimSpace(s) == s
  {
    TrimLeftOfNonSpace(s);
  }

  /** TrimSpace is idempotent. */
  lemma TrimSpaceIdempotent(s: string)
    ensures TrimSpace(TrimSpace(s)) == TrimSpace(s)
  {
    TrimSpaceIsTrimmed(s);
    TrimSpaceOfTrimmed(TrimSpace(s));
  }

  // ---------------------------------------------------------------- prefixes and searching

  predicate HasPrefix(s: string, p: string) { |p| <= |s| && s[..|p|] == p }

  predicate HasSuffix(s: string, p: string) { |p| <= |s| && s[|s| - |p|..] == p }

  /** A suffix of a tail is a suffix of the whole. */
  lemma SuffixOfDrop(s: string, k: nat, p: string)
    requires k <= |s| && HasSuffix(s[k..], p)
    ensures HasSuffix(s, p)
  {
    assert s[|s| - |p|..] == s[k..][|s| - k - |p|..];
  }

  /** `strings.TrimPrefix`: removes one leading `p` if present. */
  function TrimPrefix(s: string, p: string): (r: string)
    ensures HasPrefix(s, p) ==> s == p + r
    ensures !HasPrefix(s, p) ==> r == s
  {
    if HasPrefix(s, p) then s[|p|..] else s
  }

  /** `p` occurs in `s` starting at byte `j`. */
  predicate OccursAt(s: string, p: string, j: int) {
    0 <= j && j + |p| <= |s| && s[j..j + |p|] == p
  }

  function IndexFrom(s: string, p: string, from: nat): (r: int)
    requires from <= |s|
    ensures r == -1 || (from <= r && OccursAt(s, p, r))
    ensures r == -1 ==> forall j :: from <= j <= |s| ==> !OccursAt(s, p, j)
    ensures r != -1 ==> forall j :: from <= j < r ==> !OccursAt(s, p, j)
    decreases |s| - from
  {
    if OccursAt(s, p, from) then from
    else if from == |s| then -1
    else IndexFrom(s, p, from + 1)
  }

  /** `strings.Index`: the first byte where `p` occurs in `s`, or -1. */
  function Index(s: string, p: string): (r: int)
    ensures r == -1 || OccursAt(s, p, r)
    ensures r == -1 <==> forall j :: 0 <= j <= |s| ==> !OccursAt(s, p, j)
    ensures r != -1 ==> forall j :: 0 <= j < r ==> !OccursAt(s, p, j)
  {
    IndexFrom(s, p, 0)
  }

  /** `strings.Contains`. */
  predicate Contains(s: string, p: string) { Index(s, p) != -1 }

  /** Text without upper-case letters never contains a pattern that has one. */
  lemma NoUpperNeverContains(s: string, p: string, k: nat)
    requires NoUpper(s) && k < |p| && IsUpper(p[k])
    ensures !Contains(s, p)
  {
  }

  /** `strings.ReplaceAll` of one byte by another. */
  function ReplaceByte(s: string, from: char, to: char): (r: string)
    ensures |r| == |s|
    ensures forall i :: 0 <= i < |s| ==> r[i] == if s[i] == from then to else s[i]
  {
    seq(|s|, i requires 0 <= i < |s| => if s[i] == from then to else s[i])
  }

  /** `strings.IndexByte`: the first position of `c` in `s`, or -1. */
  function IndexByte(s: string, c: char): (r: int)
    ensures r == -1 <==> c !in s
    ensures r != -1 ==> 0 <= r < |s| && s[r] == c && c !in s[..r]
    decreases |s|
  {
    if |s| == 0 then -1
    else if s[0] == c then 0
    else
      var k := IndexByte(s[1..], c);
      if k == -1 then -1 else k + 1
  }

  /** The first occurrence is the one IndexByte reports. */
  lemma {:induction false} IndexByteIsFirst(s: string, c: char, k: nat)
    requires k < |s| && s[k] == c && c !in s[..k]
    ensures IndexByte(s, c) == k
  {
    if k > 0 {
      assert s[1..][..k - 1] == s[1..k];
      IndexByteIsFirst(s[1..], c, k - 1);
    }
  }

  /** After ReplaceByte no `from` byte is left. */
  lemma ReplaceByteRemoves(s: string, from: char, to: char)
    requires from != to
    ensures from !in ReplaceByte(s, from, to)
  {
  }

  /** ReplaceByte of a byte that does not occur changes nothing. */
  lemma ReplaceByteOfAbsent(s: string, from: char, to: char)
    requires from !in s
    ensures ReplaceByte(s, from, to) == s
  {
  }

  /** ReplaceByte applied twice is ReplaceByte applied once. */
  lemma ReplaceByteIdempotent(s: string, from: char, to: char)
    ensures ReplaceByte(ReplaceByte(s, from, to), from, to) == ReplaceByte(s, from, to)
  {
  }

  // ---------------------------------------------------------------- split and join

  /** `strings.Split(s, string(sep))` for a one-byte separator. */
  function Split(s: string, sep: char): (r: seq<string>)
    ensures |r| >= 1
    ensures forall i :: 0 <= i < |r| ==> sep !in r[i]
  {
    if |s| == 0 then [""]
    else
      var rest := Split(s[1..], sep);
      if s[0] == sep then [""] + rest else [[s[0]] + rest[0]] + rest[1..]
  }

  /** `strings.Join(parts, string(sep))`. */
  function Join(parts: seq<string>, sep: char): string
  {
    if |parts| == 0 then ""
    else if |parts| == 1 then parts[0]
    else parts[0] + [sep] + Join(parts[1..], sep)
  }

  /** Joining what Split produced gives back the original text. */
  lemma {:induction false} JoinSplit(s: string, sep: char)
    ensures Join(Split(s, sep), sep) == s
  {
    if |s| > 0 {
      var rest := Split(s[1..], sep);
      JoinSplit(s[1..], sep);
      if s[0] == sep {
        assert Split(s, sep) == [""] + rest;
        assert Join(Split(s, sep), sep) == "" + [sep] + Join(rest, sep);
        assert s == [s[0]] + s[1..];
      } else {
        var parts := [[s[0]] + rest[0]] + rest[1..];
        assert Split(s, sep) == parts;
        if |rest| == 1 {
          assert Join(parts, sep) == [s[0]] + rest[0];
        } else {
          assert parts[1..] == rest[1..];
          assert Join(parts, sep) == [s[0]] + rest[0] + [sep] + Join(rest[1..], sep);
          assert Join(rest, sep) == rest[0] + [sep] + Join(rest[1..], sep);
        }
        assert s == [s[0]] + s[1..];
      }
    }
  }

  /** Splitting joined parts gives the parts back when no part holds the separator. */
  lemma {:induction false} SplitJoin(parts: seq<string>, sep: char)
    requires |parts| >= 1
    requires forall i :: 0 <= i < |parts| ==> sep !in parts[i]
    ensures Split(Join(parts, sep), sep) == parts
  {
    if |parts| == 1 {
      SplitNoSep(parts[0], sep);
    } else {
      SplitJoin(parts[1..], sep);
      SplitPrefix(parts[0], Join(parts[1..], sep), sep);
      assert [parts[0]] + parts[1..] == parts;
    }
  }

  /** A text without the separator splits into itself. */
  lemma {:induction false} SplitNoSep(s: string, sep: char)
    requires sep !in s
    ensures Split(s, sep) == [s]
  {
    if |s| > 0 {
      SplitNoSep(s[1..], sep);
      assert [s[0]] + s[1..] == s;
    }
  }

  /** Split of `a + [sep] + b` where `a` has no separator. */
  lemma {:induction false} SplitPrefix(a: string, b: string, sep: char)
    requires sep !in a
    ensures Split(a + [sep] + b, sep) == [a] + Split(b, sep)
  {
    if |a| == 0 {
      assert a + [sep] + b == [sep] + b;
      assert ([sep] + b)[1..] == b;
    } else {
      SplitPrefix(a[1..], b, sep);
      var s := a + [sep] + b;
      assert s[0] == a[0];
      assert s[1..] == a[1..] + [sep] + b;
      assert [a[0]] + a[1..] == a;
    }
  }

  /** Split of `a + [sep] + b` where `b` has no separator. */
  lemma {:induction false} SplitSuffix(a: string, b: string, sep: char)
    requires sep !in b
    ensures Split(a + [sep] + b, sep) == Split(a, sep) + [b]
  {
    if |a| == 0 {
      SplitPrefix(a, b, sep);
      SplitNoSep(b, sep);
    } else {
      SplitSuffix(a[1..], b, sep);
      var s := a + [sep] + b;
      assert s[0] == a[0];
      assert s[1..] == a[1..] + [sep] + b;
    }
  }

  /** Split yields one part more than there are separators. */
  lemma {:induction false} SplitCount(s: string, sep: char)
    ensures |Split(s, sep)| == multiset(s)[sep] + 1
  {
    if |s| > 0 {
      SplitCount(s[1..], sep);
      assert s == [s[0]] + s[1..];
      assert multiset(s) == multiset{s[0]} + multiset(s[1..]);
    }
  }

  /** The concatenation of a sequence of strings. */
  function Concat(parts: seq<string>): string
  {
    if |parts| == 0 then "" else parts[0] + Concat(parts[1..])
  }

  lemma {:induction false} ConcatAppend(parts: seq<string>, last: string)
    ensures Concat(parts + [last]) == Concat(parts) + last
  {
    if |parts| > 0 {
      assert (parts + [last])[1..] == parts[1..] + [last];
      ConcatAppend(parts[1..], last);
    }
  }

  // ---------------------------------------------------------------- decimal numbers

  predicate IsDigit(c: char) { '0' <= c <= '9' }

  predicate AllDigits(s: string) { forall i :: 0 <= i < |s| ==> IsDigit(s[i]) }

  /** The value of a run of decimal digits. */
  function DecimalValue(s: string): (n: nat)
    requires AllDigits(s)
    decreases |s|
  {
    if |s| == 0 then 0
    else 10 * DecimalValue(s[..|s| - 1]) + (s[|s| - 1] as int - '0' as int)
  }

  function DigitChar(d: nat): (c: char)
    requires d < 10
    ensures IsDigit(c) && c as int - '0' as int == d
  {
    ('0' as int + d) as char
  }

  /** `strconv.Itoa` / `%d` of a non-negative number. */
  function NatToString(n: nat): (s: string)
    ensures |s| >= 1 && AllDigits(s)
    decreases n
  {
    if n < 10 then [DigitChar(n)] else NatToString(n / 10) + [DigitChar(n % 10)]
  }

  /** Reading back a printed number gives the number. */
  lemma {:induction false} DecimalOfNatToString(n: nat)
    ensures DecimalValue(NatToString(n)) == n
  {
    var s := NatToString(n);
    if n >= 10 {
      DecimalOfNatToString(n / 10);
      assert s[..|s| - 1] == NatToString(n / 10);
    }
  }

  /** `%d` of a Go int. */
  function IntToString(n: int): string {
    if n < 0 then "-" + NatToString(-n) else NatToString(n)
  }

  // ---------------------------------------------------------------- byte to string

  /**
   * Go's `string(b)` of a byte `b` (or of any code point): the UTF-8 encoding
   * of the code point. A byte below 0x80 stays one byte; a byte from 0x80 up
   * becomes a two-byte sequence.
   */
  function EncodeRune(c: char): (r: string)
    ensures 1 <= |r| <= 4
    ensures |r| == 1 <==> c as int < 0x80
    ensures c as int < 0x80 ==> r == [c]
    ensures 0x80 <= c as int < 0x100 ==> |r| == 2 && 0xC2 <= r[0] as int <= 0xC3
    ensures c as int >= 0x80 ==> forall i :: 0 <= i < |r| ==> 0x80 <= r[i] as int < 0x100
  {
    var n := c as int;
    if n < 0x80 then [c]
    else if n < 0x800 then [(0xC0 + n / 0x40) as char, (0x80 + n % 0x40) as char]
    else if n < 0x10000 then
      [(0xE0 + n / 0x1000) as char, (0x80 + n / 0x40 % 0x40) as char, (0x80 + n % 0x40) as char]
    else
      [(0xF0 + n / 0x40000) as char, (0x80 + n / 0x1000 % 0x40) as char,
       (0x80 + n / 0x40 % 0x40) as char, (0x80 + n % 0x40) as char]
  }

  /** The code point a UTF-8 sequence of one to four bytes stands for, read off its payload bits. */
  function DecodeRune(s: string): int
    requires 1 <= |s| <= 4
  {
    if |s| == 1 then s[0] as int
    else if |s| == 2 then (s[0] as int - 0xC0) * 0x40 + (s[1] as int - 0x80)
    else if |s| == 3 then ((s[0] as int - 0xE0) * 0x40 + (s[1] as int - 0x80)) * 0x40 + (s[2] as int - 0x80)
    else (((s[0] as int - 0xF0) * 0x40 + (s[1] as int - 0x80)) * 0x40 + (s[2] as int - 0x80)) * 0x40
         + (s[3] as int - 0x80)
  }

  /** Decoding the encoding of a code point gives it back. */
  lemma DecodeEncodeRune(c: char)
    ensures DecodeRune(EncodeRune(c)) == c as int
  {
    var n := c as int;
    var r := EncodeRune(c);
    if 0x80 <= n < 0x800 {
      assert r[0] as int - 0xC0 == n / 0x40 && r[1] as int - 0x80 == n % 0x40;
    } else if 0x800 <= n < 0x10000 {
      var n1 := n / 0x40;
      assert n == n1 * 0x40 + n % 0x40;
      assert n1 == (n / 0x1000) * 0x40 + n1 % 0x40;
      assert n / 0x40 % 0x40 == n1 % 0x40;
    } else if n >= 0x10000 {
      var n1 := n / 0x40;
      var n2 := n1 / 0x40;
      assert n == n1 * 0x40 + n % 0x40;
      assert n1 == n2 * 0x40 + n1 % 0x40;
      assert n2 == (n / 0x40000) * 0x40 + n2 % 0x40;
      assert n / 0x1000 == n2 && n / 0x40000 == n2 / 0x40;
    }
  }

  /** A separator below 0x80 occurs in the encoding of `c` only when `c` is that separator. */
  lemma EncodeRuneAvoids(c: char, sep: char)
    requires sep as int < 0x80 && c != sep
    ensures sep !in EncodeRune(c)
  {
    var r := EncodeRune(c);
    if c as int >= 0x80 {
      assert forall i :: 0 <= i < |r| ==> r[i] != sep;
    }
  }

  // ---------------------------------------------------------------- slash paths

  /** `strings.LastIndexByte`: the last position of `c` in `s`, or -1. */
  function LastIndexByte(s: string, c: char): (r: int)
    ensures r == -1 <==> c !in s
    ensures r != -1 ==> 0 <= r < |s| && s[r] == c && c !in s[r + 1..]
    decreases |s|
  {
    if |s| == 0 then -1
    else if s[|s| - 1] == c then |s| - 1
    else
      var r := LastIndexByte(s[..|s| - 1], c);
      assert s == s[..|s| - 1] + [s[|s| - 1]];
      r
  }

  /** `s` without its trailing slashes. */
  function TrimTrailingSlashes(s: string): (r: string)
    ensures |r| <= |s| && r == s[..|r|] && (r == [] || r[|r| - 1] != '/')
    ensures forall i :: |r| <= i < |s| ==> s[i] == '/'
  {
    if |s| > 0 && s[|s| - 1] == '/' then TrimTrailingSlashes(s[..|s| - 1]) else s
  }

  /** `filepath.Base` on slash-separated paths: the last element, "." for "" and "/" for all slashes. */
  function Base(path: string): (r: string)
  {
    if path == "" then "."
    else
      var p := TrimTrailingSlashes(path);
      if p == "" then "/" else p[LastIndexByte(p, '/') + 1..]
  }

  /** Base is never empty, and it holds no slash unless it is the root. */
  lemma BaseIsOneElement(path: string)
    ensures Base(path) != ""
    ensures Base(path) == "/" || '/' !in Base(path)
  {
    if path != "" {
      var p := TrimTrailingSlashes(path);
      if p != "" {
        var k := LastIndexByte(p, '/');
        assert p[k + 1..] != [] by {
          assert p[|p| - 1] != '/';
          if k != -1 { assert k < |p| - 1; }
        }
      }
    }
  }

  /** The base of `dir/name` is `name`, for a slash-free name. */
  lemma BaseOfJoin(dir: string, name: string)
    requires name != "" && '/' !in name
    ensures Base(dir + "/" + name) == name
  {
    var s := dir + "/" + name;
    assert s[|s| - 1] == name[|name| - 1];
    assert TrimTrailingSlashes(s) == s;
    assert s[|dir|] == '/';
    assert s[|dir| + 1..] == name;
    LastIndexByteIsLast(s, '/', |dir|);
  }

  /** The last occurrence is the one LastIndexByte reports. */
  lemma {:induction false} LastIndexByteIsLast(s: string, c: char, k: nat)
    requires k < |s| && s[k] == c && c !in s[k + 1..]
    ensures LastIndexByte(s, c) == k
    decreases |s|
  {
    if k < |s| - 1 {
      assert s[|s| - 1] in s[k + 1..];
      assert s[..|s| - 1][k + 1..] == s[k + 1..|s| - 1];
      LastIndexByteIsLast(s[..|s| - 1], c, k);
    }
  }
}
