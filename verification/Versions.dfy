/** Precedence of release versions: section 11 of Semantic Versioning 2.0.0, as
    semver.Compare gives it. */
module Versions {
  import opened Ordering

  datatype Ident = Number(n: nat) | Word(text: string)

  /** `suffix` tells apart texts of equal precedence: build metadata, and short
      forms such as v1 for v1.0.0. */
  datatype Version = Version(major: nat, minor: nat, patch: nat, pre: seq<Ident>, suffix: string)

  function CompareIdent(a: Ident, b: Ident): int {
    match (a, b)
    case (Number(m), Number(n)) => CompareInt(m, n)
    case (Number(_), Word(_)) => -1
    case (Word(_), Number(_)) => 1
    case (Word(s), Word(t)) => Lex(s, t, CompareChar)
  }

  function ComparePre(a: seq<Ident>, b: seq<Ident>): int {
    if a == [] && b == [] then 0
    else if a == [] then 1
    else if b == [] then -1
    else Lex(a, b, CompareIdent)
  }

  function Compare(a: Version, b: Version): int {
    if a.major != b.major then CompareInt(a.major, b.major)
    else if a.minor != b.minor then CompareInt(a.minor, b.minor)
    else if a.patch != b.patch then CompareInt(a.patch, b.patch)
    else ComparePre(a.pre, b.pre)
  }

  function NewestFirst(a: Version, b: Version): int {
    Compare(b, a)
  }

  // ------------------------------------------------------------------
  // Precedence is a total preorder
  // ------------------------------------------------------------------

  lemma IdentIsOrder()
    ensures IsOrder(CompareIdent)
  {
    assert IsOrder(CompareChar);
    LexIsOrder(CompareChar);
    var lex := (a, b) => Lex(a, b, CompareChar);
    forall a, b
      ensures CompareIdent(a, b) == -CompareIdent(b, a) && (CompareIdent(a, b) == 0 ==> a == b)
    {
      if a.Word? && b.Word? {
        assert lex(a.text, b.text) == -lex(b.text, a.text);
      }
    }
    forall a, b, c | CompareIdent(a, b) <= 0 && CompareIdent(b, c) <= 0
      ensures CompareIdent(a, c) <= 0
    {
      if a.Word? && b.Word? && c.Word? {
        assert lex(a.text, b.text) <= 0 && lex(b.text, c.text) <= 0;
      }
    }
  }

  lemma PreIsOrder()
    ensures IsOrder(ComparePre)
  {
    IdentIsOrder();
    LexIsOrder(CompareIdent);
    var lex := (a, b) => Lex(a, b, CompareIdent);
    forall a, b
      ensures ComparePre(a, b) == -ComparePre(b, a) && (ComparePre(a, b) == 0 ==> a == b)
    {
      assert lex(a, b) == -lex(b, a);
    }
    forall a, b, c | ComparePre(a, b) <= 0 && ComparePre(b, c) <= 0
      ensures ComparePre(a, c) <= 0
    {
      if a != [] && b != [] && c != [] {
        assert lex(a, b) <= 0 && lex(b, c) <= 0;
      }
    }
  }

  /** Any two versions compare, one way or the other; a tie means they differ at
      most in what precedence ignores. */
  lemma CompareIsAntisymmetric(a: Version, b: Version)
    ensures Compare(a, b) == -Compare(b, a)
    ensures Compare(a, b) == 0 <==> a == b.(suffix := a.suffix)
  {
    PreIsOrder();
    assert ComparePre(a.pre, b.pre) == -ComparePre(b.pre, a.pre);
    assert ComparePre(a.pre, a.pre) == -ComparePre(a.pre, a.pre);
  }

  lemma CompareIsTransitive(a: Version, b: Version, c: Version)
    requires Compare(a, b) <= 0 && Compare(b, c) <= 0
    ensures Compare(a, c) <= 0
    ensures Compare(a, b) < 0 || Compare(b, c) < 0 ==> Compare(a, c) < 0
  {
    PreIsOrder();
    CompareIsAntisymmetric(a, b);
    CompareIsAntisymmetric(a, c);
    if Compare(a, c) == 0 {
      assert Compare(b, a) == Compare(b, c);
    }
  }

  lemma NewestFirstIsPreorder()
    ensures IsPreorder(NewestFirst)
  {
    forall a, b
      ensures NewestFirst(a, b) == -NewestFirst(b, a)
    {
      CompareIsAntisymmetric(b, a);
    }
    forall a, b, c | NewestFirst(a, b) <= 0 && NewestFirst(b, c) <= 0
      ensures NewestFirst(a, c) <= 0
    {
      CompareIsTransitive(c, b, a);
    }
  }

  // ------------------------------------------------------------------
  // The rules of the standard
  // ------------------------------------------------------------------

  predicate CharBefore(c: char, d: char) {
    c as int < d as int
  }

  /** Section 11.4: numbers by value, words by the first different character,
      numbers before words. */
  ghost predicate IdentBefore(x: Ident, y: Ident) {
    match (x, y)
    case (Number(m), Number(n)) => m < n
    case (Number(_), Word(_)) => true
    case (Word(_), Number(_)) => false
    case (Word(s), Word(t)) => ComesBefore(s, t, CharBefore)
  }

  /** Sections 11.2 to 11.4: the first different number of the three decides; with none
      different a pre-release comes before the release, and two pre-releases go by
      their first different identifier. */
  ghost predicate Precedes(a: Version, b: Version) {
    || a.major < b.major
    || (a.major == b.major && a.minor < b.minor)
    || (a.major == b.major && a.minor == b.minor && a.patch < b.patch)
    || (&& a.major == b.major && a.minor == b.minor && a.patch == b.patch
        && a.pre != [] && (b.pre == [] || ComesBefore(a.pre, b.pre, (x, y) => IdentBefore(x, y))))
  }

  lemma CompareIsPrecedence(a: Version, b: Version)
    ensures Compare(a, b) < 0 <==> Precedes(a, b)
    ensures Compare(a, b) > 0 <==> Precedes(b, a)
  {
    BelowIsPrecedence(a, b);
    BelowIsPrecedence(b, a);
    CompareIsAntisymmetric(a, b);
  }

  lemma BelowIsPrecedence(a: Version, b: Version)
    ensures Compare(a, b) < 0 <==> Precedes(a, b)
  {
    IdentIsOrder();
    var less := (x: Ident, y: Ident) => IdentBefore(x, y);
    forall x, y
      ensures less(x, y) <==> CompareIdent(x, y) < 0
    {
      IdentOrder(x, y);
    }
    LexIsFirstDifference(a.pre, b.pre, CompareIdent, less);
  }

  lemma IdentOrder(x: Ident, y: Ident)
    ensures CompareIdent(x, y) < 0 <==> IdentBefore(x, y)
  {
    assert IsOrder(CompareChar);
    if x.Word? && y.Word? {
      LexIsFirstDifference(x.text, y.text, CompareChar, CharBefore);
    }
  }

  function Release(pre: seq<Ident>): Version {
    Version(1, 0, 0, pre, "")
  }

  /** The chain of section 11.4.4 of Semantic Versioning 2.0.0. */
  lemma SectionElevenChain()
    ensures var chain := [[Word("alpha")], [Word("alpha"), Number(1)], [Word("alpha"), Word("beta")], [Word("beta")],
                          [Word("beta"), Number(2)], [Word("beta"), Number(11)], [Word("rc"), Number(1)], []];
            forall i :: 0 <= i < 7 ==> Compare(Release(chain[i]), Release(chain[i + 1])) == -1
  {
    var alpha, beta, rc := Word("alpha"), Word("beta"), Word("rc");
    FirstDecides(alpha, [], [Number(1)]);
    FirstDecides(alpha, [Number(1)], [Word("beta")]);
    FirstDecides(beta, [], [Number(2)]);
    FirstDecides(beta, [Number(2)], [Number(11)]);
    assert Lex("alpha", "beta", CompareChar) == -1 && Lex("beta", "rc", CompareChar) == -1;
    assert CompareIdent(alpha, beta) == -1 && CompareIdent(beta, rc) == -1;
  }

  lemma FirstDecides(same: Ident, a: seq<Ident>, b: seq<Ident>)
    ensures Lex([same] + a, [same] + b, CompareIdent) == Lex(a, b, CompareIdent)
  {
    IdentIsOrder();
    assert CompareIdent(same, same) == -CompareIdent(same, same);
    assert ([same] + a)[1..] == a && ([same] + b)[1..] == b;
  }
}
