/** The text shapes the control plane accepts. A Go string is a sequence of bytes;
    here every byte is one char, so a length counts bytes. */
module Text {

  predicate Digit(c: char) { '0' <= c <= '9' }

  predicate Alphanumeric(c: char) { Digit(c) || 'A' <= c <= 'Z' || 'a' <= c <= 'z' }

  predicate IdentifierChar(c: char) { Alphanumeric(c) || c == '_' || c == '.' || c == '-' }

  // ^[A-Za-z0-9][A-Za-z0-9_.-]{0,63}$
  predicate ValidIdentifier(s: string) {
    && 1 <= |s| <= 64
    && Alphanumeric(s[0])
    && forall i | 0 <= i < |s| :: IdentifierChar(s[i])
  }

  predicate HexChar(c: char) { Digit(c) || 'a' <= c <= 'f' }

  // ^[0-9a-f]{64}$
  predicate Hex64(s: string) {
    |s| == 64 && forall i | 0 <= i < |s| :: HexChar(s[i])
  }

  predicate Space(c: char) { c == ' ' || '\t' <= c <= '\r' }

  // strings.TrimSpace(s) == ""
  predicate Blank(s: string) { forall i | 0 <= i < |s| :: Space(s[i]) }

  ghost predicate NotBlank(s: string) { exists i | 0 <= i < |s| :: !Space(s[i]) }

  function IndexOf(s: string, c: char): (i: nat)
    ensures i <= |s|
  {
    if s == "" || s[0] == c then 0 else 1 + IndexOf(s[1..], c)
  }

  predicate NumericPart(s: string) {
    && s != ""
    && (s == "0" || s[0] != '0')
    && forall i | 0 <= i < |s| :: Digit(s[i])
  }

  predicate SuffixPart(s: string) {
    s != "" && forall i | 0 <= i < |s| :: Alphanumeric(s[i]) || s[i] == '-'
  }

  predicate DottedSuffix(s: string)
    decreases |s|
  {
    var dot := IndexOf(s, '.');
    SuffixPart(s[..dot]) && (dot == |s| || DottedSuffix(s[dot + 1..]))
  }

  predicate VersionCore(s: string) {
    var first := IndexOf(s, '.');
    && first < |s|
    && var rest := s[first + 1..];
       var second := IndexOf(rest, '.');
       && second < |rest|
       && NumericPart(s[..first]) && NumericPart(rest[..second]) && NumericPart(rest[second + 1..])
  }

  // Three numeric parts, then an optional "-" pre-release and an optional "+" build suffix.
  predicate ValidSemantic(s: string) {
    var plus := IndexOf(s, '+');
    var head := s[..plus];
    var dash := IndexOf(head, '-');
    && VersionCore(head[..dash])
    && (dash == |head| || DottedSuffix(head[dash + 1..]))
    && (plus == |s| || DottedSuffix(s[plus + 1..]))
  }

  /** A separator that the first parts do not contain makes a joined text unambiguous, and so is a search
      by first part and separator. */
  lemma JoinIsExact(separator: char, a: string, x: string, b: string, y: string)
    requires separator !in a && separator !in b
    ensures a + [separator] + x == b + [separator] + y <==> a == b && x == y
    ensures a + [separator] <= b + [separator] + y <==> a == b
  {
    if a + [separator] <= b + [separator] + y { SeparatorsAlign(separator, a, b, y); }
    if a + [separator] + x == b + [separator] + y {
      SeparatorsAlign(separator, a, b, y);
      assert (a + [separator] + x)[|a| + 1..] == x && (b + [separator] + y)[|b| + 1..] == y;
    }
  }

  lemma SeparatorsAlign(separator: char, a: string, b: string, y: string)
    requires separator !in a && separator !in b && a + [separator] <= b + [separator] + y
    ensures a == b
  {
    var whole := b + [separator] + y;
    assert whole[|a|] == separator && whole[|b|] == separator;
    assert forall k | 0 <= k < |a| :: whole[k] == a[k];
    assert forall k | 0 <= k < |b| :: whole[k] == b[k];
    assert |a| == |b|;
    assert a == whole[..|a|] && b == whole[..|b|];
  }
}
