/** The contact form's email pattern (src/utils/contactValidation.ts:10-11),
    a case-insensitive, anchored regular expression:

      atom ( "." atom )* "@" ( label "." )+ tld

    where an atom is one or more of the ASCII letters, digits and
    ``!#$%&'*+/=?^_`{|}~-``, a label is ASCII letters, digits and hyphens
    that starts and ends with a letter or digit, and the tld is two or more
    ASCII letters. Without the `u` flag, case folding never maps a non-ASCII
    character onto an ASCII one, so "case-insensitive" means both ASCII cases.

    `Matches` decides the pattern by cutting the text at its first "@" and
    at its dots; `Compose` builds the pattern's language from its parts.
    The two lemmas at the end show they describe the same strings. */
module EmailPattern {
  import opened Optional
  import opened JsString

  predicate IsAsciiLetter(c: char) {
    'a' <= c <= 'z' || 'A' <= c <= 'Z'
  }

  predicate IsAsciiDigit(c: char) {
    '0' <= c <= '9'
  }

  predicate IsAlphaNumeric(c: char) {
    IsAsciiLetter(c) || IsAsciiDigit(c)
  }

  predicate IsAtomChar(c: char) {
    IsAlphaNumeric(c) || c in "!#$%&'*+/=?^_`{|}~-"
  }

  predicate IsAtom(s: string) {
    |s| >= 1 && forall k :: 0 <= k < |s| ==> IsAtomChar(s[k])
  }

  predicate IsLabel(s: string) {
    && |s| >= 1
    && IsAlphaNumeric(s[0])
    && IsAlphaNumeric(s[|s| - 1])
    && forall k :: 0 <= k < |s| ==> IsAlphaNumeric(s[k]) || s[k] == '-'
  }

  predicate IsTld(s: string) {
    |s| >= 2 && forall k :: 0 <= k < |s| ==> IsAsciiLetter(s[k])
  }

  /** Every dot-separated piece is an atom. */
  predicate IsLocalPart(s: string) {
    var atoms := Split(s, '.');
    forall k :: 0 <= k < |atoms| ==> IsAtom(atoms[k])
  }

  /** At least two dot-separated pieces: labels, then a tld. */
  predicate IsDomain(s: string) {
    var pieces := Split(s, '.');
    && |pieces| >= 2
    && (forall k :: 0 <= k < |pieces| - 1 ==> IsLabel(pieces[k]))
    && IsTld(pieces[|pieces| - 1])
  }

  /** `emailPattern.test(s)`: the text before the first "@" is a local part
      and the text after it a domain. Since no atom, label or tld contains
      "@", any other "@" makes the text fail. */
  predicate Matches(s: string) {
    match IndexOf(s, '@')
    case None => false
    case Some(i) => IsLocalPart(s[..i]) && IsDomain(s[i + 1..])
  }

  /** The parts of an address the pattern describes. */
  predicate WellFormedParts(atoms: seq<string>, labels: seq<string>, tld: string) {
    && |atoms| >= 1
    && (forall k :: 0 <= k < |atoms| ==> IsAtom(atoms[k]))
    && |labels| >= 1
    && (forall k :: 0 <= k < |labels| ==> IsLabel(labels[k]))
    && IsTld(tld)
  }

  function Compose(atoms: seq<string>, labels: seq<string>, tld: string): string {
    Join(atoms, '.') + ['@'] + Join(labels + [tld], '.')
  }

  /** A character that is neither the separator nor in any piece is not in
      the joined text. */
  lemma {:induction false} JoinAvoids(parts: seq<string>, sep: char, c: char)
    requires c != sep
    requires forall k :: 0 <= k < |parts| ==> c !in parts[k]
    ensures c !in Join(parts, sep)
    decreases |parts|
  {
    if |parts| > 1 {
      JoinAvoids(parts[1..], sep, c);
    }
  }

  /** `s` is `a + "@" + b` with no "@" in `a`: the pattern's cut falls there. */
  lemma {:induction false} CutAtFirstAt(s: string, a: string, b: string)
    requires s == a + ['@'] + b && '@' !in a
    ensures IndexOf(s, '@') == Some(|a|)
    ensures s[..|a|] == a && s[|a| + 1..] == b
    decreases |a|
  {
    if |a| == 0 {
      assert s[0] == '@';
    } else {
      assert s[0] == a[0] && a[0] != '@';
      assert s[1..] == a[1..] + ['@'] + b;
      CutAtFirstAt(s[1..], a[1..], b);
    }
  }

  /** Atoms hold neither "@" nor ".". */
  lemma AtomsAvoid(atoms: seq<string>)
    requires forall k :: 0 <= k < |atoms| ==> IsAtom(atoms[k])
    ensures forall k :: 0 <= k < |atoms| ==> '@' !in atoms[k] && '.' !in atoms[k]
  {
    forall k | 0 <= k < |atoms|
      ensures '@' !in atoms[k] && '.' !in atoms[k]
    {
      assert forall j :: 0 <= j < |atoms[k]| ==> IsAtomChar(atoms[k][j]);
    }
  }

  /** Labels and the tld hold no ".". */
  lemma DomainPiecesAvoidDot(labels: seq<string>, tld: string)
    requires forall k :: 0 <= k < |labels| ==> IsLabel(labels[k])
    requires IsTld(tld)
    ensures forall k :: 0 <= k < |labels + [tld]| ==> '.' !in (labels + [tld])[k]
  {
    var pieces := labels + [tld];
    forall k | 0 <= k < |pieces|
      ensures '.' !in pieces[k]
    {
      if k < |labels| {
        assert pieces[k] == labels[k];
        assert forall j :: 0 <= j < |labels[k]| ==> IsAlphaNumeric(labels[k][j]) || labels[k][j] == '-';
      } else {
        assert pieces[k] == tld;
      }
    }
  }

  /** The local part of a composed address is its atoms' text, and it
      passes the local-part test. */
  lemma LocalPartOf(atoms: seq<string>)
    requires |atoms| >= 1 && forall k :: 0 <= k < |atoms| ==> IsAtom(atoms[k])
    ensures '@' !in Join(atoms, '.')
    ensures IsLocalPart(Join(atoms, '.'))
  {
    AtomsAvoid(atoms);
    JoinAvoids(atoms, '.', '@');
    SplitJoin(atoms, '.');
  }

  /** The domain of a composed address passes the domain test. */
  lemma DomainOf(labels: seq<string>, tld: string)
    requires |labels| >= 1 && forall k :: 0 <= k < |labels| ==> IsLabel(labels[k])
    requires IsTld(tld)
    ensures IsDomain(Join(labels + [tld], '.'))
  {
    var pieces := labels + [tld];
    DomainPiecesAvoidDot(labels, tld);
    SplitJoin(pieces, '.');
    assert forall k :: 0 <= k < |pieces| - 1 ==> pieces[k] == labels[k];
  }

  /** Every address built from well-formed parts matches. */
  lemma ComposedMatches(atoms: seq<string>, labels: seq<string>, tld: string)
    requires WellFormedParts(atoms, labels, tld)
    ensures Matches(Compose(atoms, labels, tld))
  {
    LocalPartOf(atoms);
    DomainOf(labels, tld);
    CutAtFirstAt(Compose(atoms, labels, tld), Join(atoms, '.'), Join(labels + [tld], '.'));
  }

  /** Every matching text is an address built from well-formed parts. */
  lemma MatchDecomposes(s: string) returns (atoms: seq<string>, labels: seq<string>, tld: string)
    requires Matches(s)
    ensures WellFormedParts(atoms, labels, tld)
    ensures s == Compose(atoms, labels, tld)
  {
    var i := IndexOf(s, '@').value;
    atoms := Split(s[..i], '.');
    var pieces := Split(s[i + 1..], '.');
    labels := pieces[..|pieces| - 1];
    tld := pieces[|pieces| - 1];
    assert labels + [tld] == pieces;
    JoinSplit(s[..i], '.');
    JoinSplit(s[i + 1..], '.');
    assert s == s[..i] + ['@'] + s[i + 1..];
  }
}
