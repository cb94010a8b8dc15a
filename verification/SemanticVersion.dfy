/** The version texts that are accepted are exactly those of the pattern: three numbers without leading zeros, then an
    optional pre-release and an optional build tag. */
module SemanticVersion {
  import opened Text

  // ----- The pattern ----------------------------------------------------------------------------------------------

  ghost predicate Number(s: string) {
    s == "0" || (|s| > 0 && '1' <= s[0] <= '9' && forall i | 0 <= i < |s| :: '0' <= s[i] <= '9')
  }

  // [0-9A-Za-z-]+
  ghost predicate Word(s: string) {
    |s| > 0 && forall i | 0 <= i < |s| ::
      '0' <= s[i] <= '9' || 'A' <= s[i] <= 'Z' || 'a' <= s[i] <= 'z' || s[i] == '-'
  }

  function Dotted(words: seq<string>): string
    requires words != []
  {
    if |words| == 1 then words[0] else words[0] + "." + Dotted(words[1..])
  }

  ghost predicate Words(words: seq<string>) { words != [] && forall i | 0 <= i < |words| :: Word(words[i]) }

  ghost predicate Tag(s: string) { exists words :: Words(words) && Dotted(words) == s }

  ghost predicate OptionalTag(mark: char, s: string) { s == "" || (s[0] == mark && Tag(s[1..])) }

  ghost predicate Version(a: string, b: string, c: string, preRelease: string, build: string) {
    Number(a) && Number(b) && Number(c) && OptionalTag('-', preRelease) && OptionalTag('+', build)
  }

  ghost predicate Semantic(s: string) {
    exists a, b, c, preRelease, build ::
      Version(a, b, c, preRelease, build) && s == a + "." + b + "." + c + preRelease + build
  }

  // ----- Finding a character ---------------------------------------------------------------------------------------

  lemma {:induction false} FirstAt(s: string, c: char)
    ensures var i := IndexOf(s, c);
      && c !in s[..i] && (i < |s| ==> s[i] == c) && (i == |s| <==> c !in s)
  {
    if s != "" && s[0] != c {
      FirstAt(s[1..], c);
      var i := IndexOf(s[1..], c);
      assert s[..i + 1] == [s[0]] + s[1..][..i] && s == [s[0]] + s[1..];
    }
  }

  lemma {:induction false} IndexIs(x: string, c: char, y: string)
    requires c !in x
    ensures IndexOf(x + [c] + y, c) == |x|
  {
    if x != "" {
      IndexIs(x[1..], c, y);
      assert (x + [c] + y)[1..] == x[1..] + [c] + y;
    }
  }

  lemma NotThere(s: string, c: char)
    requires c !in s
    ensures IndexOf(s, c) == |s|
  {
    FirstAt(s, c);
  }

  // ----- Parts -------------------------------------------------------------------------------------------------------

  lemma NumberExactly(s: string)
    ensures NumericPart(s) <==> Number(s)
    ensures Number(s) ==> '.' !in s && '-' !in s && '+' !in s
  {
  }

  lemma WordExactly(s: string)
    ensures SuffixPart(s) <==> Word(s)
    ensures Word(s) ==> '.' !in s && '+' !in s
  {
  }

  lemma {:induction false} DottedHasNoPlus(words: seq<string>)
    requires Words(words)
    ensures '+' !in Dotted(words)
  {
    hide Word;
    WordExactly(words[0]);
    if |words| > 1 {
      RestAreWords(words);
      DottedHasNoPlus(words[1..]);
    }
  }

  lemma RestAreWords(words: seq<string>)
    requires Words(words) && |words| > 1
    ensures Words(words[1..])
  {
    hide Word;
  }

  lemma {:induction false} DottedIsAccepted(words: seq<string>)
    requires Words(words)
    ensures DottedSuffix(Dotted(words))
  {
    hide Word, SuffixPart;
    WordExactly(words[0]);
    var s := Dotted(words);
    if |words| == 1 {
      NotThere(s, '.');
      assert s[..|s|] == s;
    } else {
      RestAreWords(words);
      DottedIsAccepted(words[1..]);
      IndexIs(words[0], '.', Dotted(words[1..]));
      assert s[..|words[0]|] == words[0] && s[|words[0]| + 1..] == Dotted(words[1..]);
    }
  }

  lemma {:induction false} AcceptedIsDotted(s: string) returns (words: seq<string>)
    requires DottedSuffix(s)
    ensures Words(words) && Dotted(words) == s
    decreases |s|
  {
    hide Word, SuffixPart;
    var dot := IndexOf(s, '.');
    FirstAt(s, '.');
    WordExactly(s[..dot]);
    if dot == |s| {
      assert s[..dot] == s;
      words := [s];
    } else {
      var rest := AcceptedIsDotted(s[dot + 1..]);
      words := [s[..dot]] + rest;
      assert words[1..] == rest;
      assert s == s[..dot] + "." + s[dot + 1..];
    }
  }

  lemma TagExactly(s: string)
    ensures DottedSuffix(s) <==> Tag(s)
    ensures Tag(s) ==> '+' !in s
  {
    hide DottedSuffix, Word, Dotted;
    if DottedSuffix(s) { var words := AcceptedIsDotted(s); }
    if Tag(s) {
      var words :| Words(words) && Dotted(words) == s;
      DottedIsAccepted(words);
      DottedHasNoPlus(words);
    }
  }

  // ----- The core --------------------------------------------------------------------------------------------

  ghost predicate Core(s: string, a: string, b: string, c: string) {
    Number(a) && Number(b) && Number(c) && s == a + "." + b + "." + c
  }

  lemma CoreIsAccepted(s: string, a: string, b: string, c: string)
    requires Core(s, a, b, c)
    ensures VersionCore(s) && '-' !in s && '+' !in s
  {
    hide Number, NumericPart;
    NumberExactly(a);
    NumberExactly(b);
    NumberExactly(c);
    var rest := b + "." + c;
    assert s == a + "." + rest;
    IndexIs(a, '.', rest);
    IndexIs(b, '.', c);
    assert s[..|a|] == a && s[|a| + 1..] == rest && rest[..|b|] == b && rest[|b| + 1..] == c;
  }

  lemma SplitAtFirst(s: string, c: char)
    requires IndexOf(s, c) < |s|
    ensures var i := IndexOf(s, c); s == s[..i] + [c] + s[i + 1..]
  {
    FirstAt(s, c);
  }

  lemma AcceptedIsCore(s: string) returns (a: string, b: string, c: string)
    requires VersionCore(s)
    ensures Core(s, a, b, c)
  {
    hide Number, NumericPart, IndexOf;
    var first := IndexOf(s, '.');
    var rest := s[first + 1..];
    var second := IndexOf(rest, '.');
    SplitAtFirst(s, '.');
    SplitAtFirst(rest, '.');
    a, b, c := s[..first], rest[..second], rest[second + 1..];
    NumberExactly(a);
    NumberExactly(b);
    NumberExactly(c);
    Associate(a, b, c);
  }

  lemma Associate(a: string, b: string, c: string)
    ensures a + "." + (b + "." + c) == a + "." + b + "." + c
  {
  }

  // ----- The whole -------------------------------------------------------------------------------------------

  // The head is a core and an optional pre-release.
  lemma HeadIsAccepted(core: string, a: string, b: string, c: string, preRelease: string)
    requires Core(core, a, b, c) && OptionalTag('-', preRelease)
    ensures var head := core + preRelease;
      var dash := IndexOf(head, '-');
      && head[..dash] == core && (dash == |head| || DottedSuffix(head[dash + 1..])) && '+' !in head
  {
    hide Core, DottedSuffix, Tag, VersionCore;
    CoreIsAccepted(core, a, b, c);
    var head := core + preRelease;
    if preRelease == "" {
      assert head == core;
      NotThere(core, '-');
    } else {
      var tag := preRelease[1..];
      TagExactly(tag);
      assert preRelease == "-" + tag && head == core + "-" + tag;
      IndexIs(core, '-', tag);
    }
  }

  lemma SemanticIsAccepted(s: string, a: string, b: string, c: string, preRelease: string, build: string)
    requires Version(a, b, c, preRelease, build) && s == a + "." + b + "." + c + preRelease + build
    ensures ValidSemantic(s)
  {
    hide Number, DottedSuffix, Tag, VersionCore;
    var core := a + "." + b + "." + c;
    CoreIsAccepted(core, a, b, c);
    HeadIsAccepted(core, a, b, c, preRelease);
    var head := core + preRelease;
    assert s == head + build;
    if build == "" {
      assert s == head;
      NotThere(s, '+');
      assert s[..|s|] == s;
    } else {
      var tag := build[1..];
      TagExactly(tag);
      assert build == "+" + tag && s == head + "+" + tag;
      IndexIs(head, '+', tag);
      assert s[..|head|] == head && s[|head| + 1..] == tag;
    }
  }

  // From the first mark on, an optional tag.
  lemma TagFrom(s: string, mark: char)
    requires IndexOf(s, mark) == |s| || DottedSuffix(s[IndexOf(s, mark) + 1..])
    ensures OptionalTag(mark, s[IndexOf(s, mark)..])
  {
    hide DottedSuffix, Tag;
    var i := IndexOf(s, mark);
    FirstAt(s, mark);
    if i < |s| {
      TagExactly(s[i + 1..]);
      assert s[i..][1..] == s[i + 1..];
    }
  }

  lemma AcceptedIsSemantic(s: string)
    requires ValidSemantic(s)
    ensures Semantic(s)
  {
    hide Number, DottedSuffix, OptionalTag, VersionCore, IndexOf;
    var plus := IndexOf(s, '+');
    var head := s[..plus];
    var dash := IndexOf(head, '-');
    TagFrom(s, '+');
    TagFrom(head, '-');
    var a, b, c := AcceptedIsCore(head[..dash]);
    assert Version(a, b, c, head[dash..], s[plus..]);
    assert head == head[..dash] + head[dash..] && s == head + s[plus..];
  }

  /** A version text is accepted if and only if it matches the pattern. */
  lemma SemanticExactly(s: string)
    ensures ValidSemantic(s) <==> Semantic(s)
  {
    hide ValidSemantic, Version;
    if ValidSemantic(s) { AcceptedIsSemantic(s); }
    if a, b, c, preRelease, build :|
      Version(a, b, c, preRelease, build) && s == a + "." + b + "." + c + preRelease + build {
      SemanticIsAccepted(s, a, b, c, preRelease, build);
    }
  }
}
