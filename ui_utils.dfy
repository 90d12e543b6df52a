/**
 * Terminal display helpers: shortening a path by abbreviating its parent
 * directories. Path cleaning (`filepath.Clean`) is a parameter, and the
 * separator is `/`.
 */
module UiUtils {
  import opened GoStrings

  /**
   * A parent directory is abbreviated to `string(part[0])`: its first byte,
   * or that byte's two-byte UTF-8 encoding from 0x80 up. An empty one stays empty.
   */
  function AbbreviatePart(part: string): (r: string)
    ensures r == "" <==> part == ""
    ensures part != "" && part[0] as int < 0x80 ==> r == part[..1]
  {
    if part == "" then "" else EncodeRune(part[0])
  }

  /** Every part but the last abbreviated. */
  function Abbreviate(parts: seq<string>): (r: seq<string>)
    requires |parts| >= 1
    ensures |r| == |parts| && r[|r| - 1] == parts[|parts| - 1]
    ensures forall i :: 0 <= i < |parts| - 1 ==> r[i] == AbbreviatePart(parts[i])
  {
    seq(|parts|, i requires 0 <= i < |parts| =>
      if i < |parts| - 1 then AbbreviatePart(parts[i]) else parts[i])
  }

  /**
   * What ShortenPath returns: the path itself when its cleaned form has at
   * most two parts, else the cleaned parts with all but the last abbreviated.
   */
  function ShortenedPath(path: string, clean: string -> string): string {
    var parts := Split(clean(path), '/');
    if |parts| <= 2 then path else Join(Abbreviate(parts), '/')
  }

  /** ShortenPath: abbreviates the parts of the cleaned path in place, then joins them. */
  method ShortenPath(path: string, clean: string -> string) returns (r: string)
    ensures r == ShortenedPath(path, clean)
  {
    var parts := Split(clean(path), '/');
    if |parts| <= 2 {
      return path;
    }
    ghost var original := parts;
    var i := 0;
    while i < |parts| - 1
      invariant |parts| == |original| && 0 <= i <= |parts| - 1
      invariant forall j :: 0 <= j < i ==> parts[j] == AbbreviatePart(original[j])
      invariant forall j :: i <= j < |parts| ==> parts[j] == original[j]
    {
      if parts[i] != "" && |parts[i]| > 0 {
        parts := parts[i := EncodeRune(parts[i][0])];
      }
      i := i + 1;
    }
    assert parts == Abbreviate(original);
    r := Join(parts, '/');
  }

  /**
   * A shortened path has as many parts as the cleaned path; its last part is
   * kept whole and every earlier part is `string` of the original one's first
   * byte: that byte itself below 0x80, its UTF-8 encoding from 0x80 up (and
   * empty where the part was empty).
   */
  lemma ShortenedPathParts(path: string, clean: string -> string)
    requires |Split(clean(path), '/')| > 2
    ensures var parts := Split(clean(path), '/');
            var out := Split(ShortenedPath(path, clean), '/');
            |out| == |parts| && out[|out| - 1] == parts[|parts| - 1]
            && forall i :: 0 <= i < |parts| - 1 ==>
                 && (out[i] == "" <==> parts[i] == "")
                 && (parts[i] != "" ==> out[i] == EncodeRune(parts[i][0]))
                 && (parts[i] != "" && parts[i][0] as int < 0x80 ==> out[i] == parts[i][..1])
  {
    var parts := Split(clean(path), '/');
    var a := Abbreviate(parts);
    forall i | 0 <= i < |a|
      ensures '/' !in a[i]
    {
      if i < |a| - 1 {
        assert a[i] == AbbreviatePart(parts[i]) && '/' !in parts[i];
        if parts[i] != "" {
          assert parts[i][0] in parts[i];
          EncodeRuneAvoids(parts[i][0], '/');
        }
      }
    }
    SplitJoin(a, '/');
  }

  /** Abbreviating parts that abbreviation leaves alone changes nothing. */
  lemma AbbreviateFixedParts(parts: seq<string>)
    requires |parts| >= 1
    requires forall i :: 0 <= i < |parts| - 1 ==> AbbreviatePart(parts[i]) == parts[i]
    ensures Abbreviate(parts) == parts
  {
  }

  /**
   * A parent part settles after one abbreviation when it is empty or starts
   * with an ASCII byte or with 0xC3, the one byte from 0x80 up whose encoding
   * starts with itself.
   */
  predicate SettledLead(part: string) {
    part == "" || part[0] as int < 0x80 || part[0] == '\U{C3}'
  }

  /** Abbreviating a part with a settled lead twice is abbreviating it once. */
  lemma AbbreviateSettled(part: string)
    requires SettledLead(part)
    ensures AbbreviatePart(AbbreviatePart(part)) == AbbreviatePart(part)
  {
    if part != "" && part[0] == '\U{C3}' {
      assert EncodeRune('\U{C3}') == "\U{C3}\U{83}";
    }
  }

  /**
   * Other bytes from 0x80 up do not settle: the part of bytes 0xC2 0xA9 (the
   * UTF-8 of "©") abbreviates to 0xC3 0x82, and that again to 0xC3 0x83.
   */
  lemma ReencodedLeadChangesAgain()
    ensures AbbreviatePart("\U{C2}\U{A9}") == "\U{C3}\U{82}"
    ensures AbbreviatePart("\U{C3}\U{82}") == "\U{C3}\U{83}"
  {
    assert EncodeRune('\U{C2}') == "\U{C3}\U{82}";
    assert EncodeRune('\U{C3}') == "\U{C3}\U{83}";
  }

  /**
   * Shortening a shortened path again changes nothing, when cleaning leaves it
   * as it is and every parent part of the cleaned path has a settled lead.
   */
  lemma ShortenedPathIdempotent(path: string, clean: string -> string)
    requires clean(ShortenedPath(path, clean)) == ShortenedPath(path, clean)
    requires var parts := Split(clean(path), '/');
             forall i :: 0 <= i < |parts| - 1 ==> SettledLead(parts[i])
    ensures ShortenedPath(ShortenedPath(path, clean), clean) == ShortenedPath(path, clean)
  {
    var r := ShortenedPath(path, clean);
    var parts := Split(clean(path), '/');
    if |parts| > 2 {
      ShortenedPathParts(path, clean);
      var out := Split(r, '/');
      forall i | 0 <= i < |out| - 1
        ensures AbbreviatePart(out[i]) == out[i]
      {
        AbbreviateSettled(parts[i]);
      }
      AbbreviateFixedParts(out);
      JoinSplit(r, '/');
    }
  }

  lemma JoinStep(first: string, rest: seq<string>)
    requires |rest| >= 1
    ensures Join([first] + rest, '/') == first + "/" + Join(rest, '/')
  {
    assert ([first] + rest)[1..] == rest;
  }

  /** Join of the five parts of an absolute path of four elements. */
  lemma JoinFive(a: string, b: string, c: string, d: string)
    ensures Join(["", a, b, c, d], '/') == "/" + a + "/" + b + "/" + c + "/" + d
  {
    JoinStep(c, [d]);
    assert [c, d] == [c] + [d];
    JoinStep(b, [c, d]);
    assert [b, c, d] == [b] + [c, d];
    JoinStep(a, [b, c, d]);
    assert [a, b, c, d] == [a] + [b, c, d];
    JoinStep("", [a, b, c, d]);
    assert ["", a, b, c, d] == [""] + [a, b, c, d];
  }

  /**
   * An absolute path of four elements keeps its last element and abbreviates
   * the other three to `string` of their first byte, as
   * /Users/john/workspaces/project becomes /U/j/w/project.
   */
  lemma ShortenedPathOfFour(a: string, b: string, c: string, d: string, clean: string -> string)
    requires a != "" && b != "" && c != ""
    requires '/' !in a && '/' !in b && '/' !in c && '/' !in d
    requires var path := "/" + a + "/" + b + "/" + c + "/" + d; clean(path) == path
    ensures ShortenedPath("/" + a + "/" + b + "/" + c + "/" + d, clean)
            == "/" + EncodeRune(a[0]) + "/" + EncodeRune(b[0]) + "/" + EncodeRune(c[0]) + "/" + d
  {
    var parts := ["", a, b, c, d];
    JoinFive(a, b, c, d);
    assert forall i :: 0 <= i < |parts| ==> '/' !in parts[i];
    SplitJoin(parts, '/');
    var short := ["", EncodeRune(a[0]), EncodeRune(b[0]), EncodeRune(c[0]), d];
    assert Abbreviate(parts) == short;
    JoinFive(EncodeRune(a[0]), EncodeRune(b[0]), EncodeRune(c[0]), d);
  }
}
