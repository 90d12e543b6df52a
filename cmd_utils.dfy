/** The display helpers of the CLI's commands: masking an e-mail address. */
module CmdUtils {
  import opened GoStrings

  /**
   * maskEmail: an address with exactly one `@` keeps its domain, and its
   * local part shows at most its first and last byte, each converted by
   * `string(b)`; anything else is shown as `***`.
   */
  function MaskEmail(email: string): string {
    var parts := Split(email, '@');
    if |parts| != 2 then "***"
    else
      var local, domain := parts[0], parts[1];
      if |local| == 0 then "***@" + domain
      else if |local| == 1 then "*@" + domain
      else if |local| == 2 then EncodeRune(local[0]) + "*@" + domain
      else EncodeRune(local[0]) + "***" + EncodeRune(local[|local| - 1]) + "@" + domain
  }

  /**
   * The masked local part: `***`, `*`, first byte and `*`, or first byte,
   * `***` and last byte, where a kept byte from 0x80 up is written as its
   * two-byte UTF-8 encoding.
   */
  predicate MaskedLocal(local: string, m: string) {
    if |local| == 0 then m == "***"
    else if |local| == 1 then m == "*"
    else if |local| == 2 then m == EncodeRune(local[0]) + "*"
    else m == EncodeRune(local[0]) + "***" + EncodeRune(local[|local| - 1])
  }

  /** The split of an address whose two halves have no `@`. */
  lemma SplitAddress(local: string, domain: string)
    requires '@' !in local && '@' !in domain
    ensures Split(local + "@" + domain, '@') == [local, domain]
  {
    SplitPrefix(local, domain, '@');
    SplitNoSep(domain, '@');
  }

  /** The masked local part of an address holds no `@`. */
  lemma MaskedLocalHasNoAt(local: string, m: string)
    requires '@' !in local && MaskedLocal(local, m)
    ensures '@' !in m
  {
    if |local| >= 2 {
      assert local[0] in local && local[|local| - 1] in local;
      EncodeRuneAvoids(local[0], '@');
      EncodeRuneAvoids(local[|local| - 1], '@');
    }
  }

  /** The masked text of an address is its masked local part, `@` and the domain. */
  lemma MaskEmailSplits(local: string, domain: string) returns (m: string)
    requires '@' !in local && '@' !in domain
    ensures MaskedLocal(local, m) && MaskEmail(local + "@" + domain) == m + "@" + domain
  {
    SplitAddress(local, domain);
    m := if |local| == 0 then "***" else if |local| == 1 then "*"
         else if |local| == 2 then EncodeRune(local[0]) + "*"
         else EncodeRune(local[0]) + "***" + EncodeRune(local[|local| - 1]);
  }

  /**
   * An address `local@domain` is masked to `m@domain`, where `m` shows only
   * the first and last byte of `local` and the result is again an address
   * with the same domain.
   */
  lemma MaskEmailOfAddress(local: string, domain: string)
    requires '@' !in local && '@' !in domain
    ensures var r := MaskEmail(local + "@" + domain);
            HasSuffix(r, "@" + domain)
            && MaskedLocal(local, r[..|r| - |domain| - 1])
            && Split(r, '@') == [r[..|r| - |domain| - 1], domain]
  {
    var m := MaskEmailSplits(local, domain);
    var r := m + "@" + domain;
    assert r[..|r| - |domain| - 1] == m;
    assert r[|r| - |"@" + domain|..] == "@" + domain;
    MaskedLocalHasNoAt(local, m);
    SplitAddress(m, domain);
  }

  /** The result is `***` exactly when the address does not hold exactly one `@`. */
  lemma MaskEmailRejectsMalformed(email: string)
    ensures MaskEmail(email) == "***" <==> multiset(email)['@'] != 1
  {
    SplitCount(email, '@');
    var parts := Split(email, '@');
    if |parts| == 2 {
      var r := MaskEmail(email);
      assert r[|r| - |parts[1]| - 1] == '@';
    }
  }

  /** MaskEmailOfAddress with the masked local part given. */
  lemma MaskEmailIs(local: string, domain: string, m: string)
    requires '@' !in local && '@' !in domain && MaskedLocal(local, m)
    ensures MaskEmail(local + "@" + domain) == m + "@" + domain
  {
    MaskEmailOfAddress(local, domain);
    var r := MaskEmail(local + "@" + domain);
    assert r == r[..|r| - |domain| - 1] + "@" + domain;
  }

  /** The doc example of maskEmail: john@example.com is shown as j***n@example.com. */
  lemma MaskEmailExample()
    ensures MaskEmail("john@example.com") == "j***n@example.com"
  {
    assert '@' !in "john" && '@' !in "example.com";
    assert EncodeRune('j') == "j" && EncodeRune('n') == "n";
    assert MaskedLocal("john", "j***n");
    MaskEmailIs("john", "example.com", "j***n");
    assert "john" + "@" + "example.com" == "john@example.com";
    assert "j***n" + "@" + "example.com" == "j***n@example.com";
  }

  /** A kept byte from 0x80 up is shown as two bytes: the local part starting with byte 0xC3 shows 0xC3 0x83. */
  lemma MaskEmailOfHighByte()
    ensures MaskEmail("\U{C3}\U{A9}x@d") == "\U{C3}\U{83}***x@d"
  {
    var local, domain := "\U{C3}\U{A9}x", "d";
    assert '@' !in local && '@' !in domain;
    assert EncodeRune('\U{C3}') == "\U{C3}\U{83}" && EncodeRune('x') == "x";
    assert MaskedLocal(local, "\U{C3}\U{83}***x");
    MaskEmailIs(local, domain, "\U{C3}\U{83}***x");
    assert local + "@" + domain == "\U{C3}\U{A9}x@d";
    assert "\U{C3}\U{83}***x" + "@" + domain == "\U{C3}\U{83}***x@d";
  }
}
