/** The string operations of the HTTP API and the DNS front end. */
module Text {

  /** strings.Split for a one-character separator. */
  function Split(s: string, sep: char): (parts: seq<string>)
    ensures parts != []
    ensures forall i :: 0 <= i < |parts| ==> sep !in parts[i]
  {
    if s == [] then [[]]
    else if s[0] == sep then [[]] + Split(s[1..], sep)
    else
      var rest := Split(s[1..], sep);
      [[s[0]] + rest[0]] + rest[1..]
  }

  function Join(parts: seq<string>, sep: char): string
    requires parts != []
  {
    if |parts| == 1 then parts[0] else parts[0] + [sep] + Join(parts[1..], sep)
  }

  lemma {:induction false} JoinSplit(s: string, sep: char)
    ensures Join(Split(s, sep), sep) == s
  {
    if s != [] {
      var rest := Split(s[1..], sep);
      JoinSplit(s[1..], sep);
      var parts := Split(s, sep);
      if s[0] == sep {
        assert parts[1..] == rest;
        assert [] + [sep] + s[1..] == s;
      } else {
        assert parts[1..] == rest[1..];
        if |rest| == 1 {
          assert [s[0]] + rest[0] == s;
        } else {
          assert ([s[0]] + rest[0]) + [sep] + Join(rest[1..], sep) == [s[0]] + (rest[0] + [sep] + Join(rest[1..], sep));
        }
      }
    }
  }

  lemma {:induction false} JoinAppend(a: seq<string>, b: seq<string>, sep: char)
    requires a != [] && b != []
    ensures Join(a + b, sep) == Join(a, sep) + [sep] + Join(b, sep)
  {
    assert (a + b)[1..] == a[1..] + b;
    if |a| > 1 {
      JoinAppend(a[1..], b, sep);
      assert a[0] + [sep] + (Join(a[1..], sep) + [sep] + Join(b, sep)) == (a[0] + [sep] + Join(a[1..], sep)) + [sep] + Join(b, sep);
    }
  }

  predicate Digit(c: char) {
    '0' <= c <= '9'
  }

  predicate Lower(c: char) {
    'a' <= c <= 'z'
  }

  predicate Upper(c: char) {
    'A' <= c <= 'Z'
  }

  predicate Alnum(c: char) {
    Digit(c) || Lower(c) || Upper(c)
  }

  function LowerChar(c: char): char {
    if Upper(c) then c + 32 as char else c
  }

  function ToLower(s: string): string {
    seq(|s|, i requires 0 <= i < |s| => LowerChar(s[i]))
  }

  /** The same letter in upper or lower case, or the same character. */
  predicate SameLetter(c: char, d: char) {
    c == d || (Upper(c) && d as int == c as int + 32) || (Upper(d) && c as int == d as int + 32)
  }

  /** Equal but for the case of letters. */
  ghost predicate EqualFold(a: string, b: string) {
    |a| == |b| && forall i :: 0 <= i < |a| ==> SameLetter(a[i], b[i])
  }

  /** The lower-case form is the one spelling without capitals, so it is the same for all spellings. */
  lemma LowerFolds(a: string, b: string)
    ensures EqualFold(a, ToLower(a)) && forall i :: 0 <= i < |a| ==> !('A' <= ToLower(a)[i] <= 'Z')
    ensures ToLower(a) == ToLower(b) <==> EqualFold(a, b)
  {
    if ToLower(a) == ToLower(b) {
      forall i | 0 <= i < |a|
        ensures SameLetter(a[i], b[i])
      {
        assert ToLower(a)[i] == ToLower(b)[i];
      }
    }
  }

  /** One component of a host name: letters, digits and inner hyphens. */
  predicate Label(s: string) {
    && s != [] && Alnum(s[0]) && Alnum(s[|s| - 1])
    && forall i :: 0 <= i < |s| ==> Alnum(s[i]) || s[i] == '-'
  }

  /** What hostnameRegexp accepts. */
  predicate IsHostname(s: string) {
    forall i :: 0 <= i < |Split(s, '.')| ==> Label(Split(s, '.')[i])
  }

  /** What follows inside a host name: the rest of a component, then whole components, each after a dot. */
  predicate RestOfHostname(s: string) {
    var parts := Split(s, '.');
    EndOfLabel(parts[0]) && forall i :: 1 <= i < |parts| ==> Label(parts[i])
  }

  predicate EndOfLabel(s: string) {
    && (s != [] ==> Alnum(s[|s| - 1]))
    && forall i :: 0 <= i < |s| ==> Alnum(s[i]) || s[i] == '-'
  }

  lemma EndOfLabelStep(c: char, s: string)
    ensures EndOfLabel([c] + s) <==> EndOfLabel(s) && (Alnum(c) || c == '-') && (s == [] ==> Alnum(c))
  {
    var t := [c] + s;
    assert t[0] == c && forall i :: 0 <= i < |s| ==> s[i] == t[i + 1];
    assert forall i :: 1 <= i < |t| ==> t[i] == s[i - 1];
  }

  /** The characters of such a rest: it does not end in a dot or hyphen, nor does a dot stand beside either. */
  ghost predicate RestByChars(s: string) {
    && (s != [] ==> Alnum(s[|s| - 1]))
    && (forall i :: 0 <= i < |s| ==> Alnum(s[i]) || s[i] == '-' || s[i] == '.')
    && (forall i :: 0 <= i < |s| && s[i] == '.' ==> DotBetween(s, i))
  }

  predicate DotBetween(s: string, i: nat)
    requires i < |s|
  {
    i + 1 < |s| && Alnum(s[i + 1]) && (i > 0 ==> Alnum(s[i - 1]))
  }

  lemma {:induction false} RestExactly(s: string)
    ensures RestOfHostname(s) <==> RestByChars(s)
  {
    if s != [] {
      var t := s[1..];
      RestExactly(t);
      SplitFirst(t);
      if s[0] == '.' {
        DotFirst(s);
      } else {
        LetterFirst(s);
      }
      RestByStep(s);
    }
  }

  lemma SplitFirst(t: string)
    ensures Split(t, '.')[0] == [] <==> t == [] || t[0] == '.'
    ensures t != [] && t[0] != '.' ==> Split(t, '.')[0][0] == t[0]
  {
  }

  lemma DotFirst(s: string)
    requires s != [] && s[0] == '.'
    ensures RestOfHostname(s) <==> RestOfHostname(s[1..]) && s[1..] != [] && Alnum(s[1])
  {
    var rest := Split(s[1..], '.');
    SplitFirst(s[1..]);
    var parts := Split(s, '.');
    assert parts == [[]] + rest && parts[1] == rest[0];
    assert forall i :: 1 <= i < |rest| ==> rest[i] == parts[i + 1];
    assert forall i :: 2 <= i < |parts| ==> parts[i] == rest[i - 1];
  }

  lemma LetterFirst(s: string)
    requires s != [] && s[0] != '.'
    ensures RestOfHostname(s) <==>
            && RestOfHostname(s[1..]) && (Alnum(s[0]) || s[0] == '-')
            && (s[1..] == [] || s[1] == '.' ==> Alnum(s[0]))
  {
    var rest := Split(s[1..], '.');
    SplitFirst(s[1..]);
    var parts := Split(s, '.');
    assert parts == [[s[0]] + rest[0]] + rest[1..];
    assert forall i :: 1 <= i < |parts| ==> parts[i] == rest[i];
    EndOfLabelStep(s[0], rest[0]);
  }

  lemma RestByStep(s: string)
    requires s != []
    ensures RestByChars(s) <==>
            && RestByChars(s[1..]) && (Alnum(s[0]) || s[0] == '-' || s[0] == '.')
            && (s[0] == '.' ==> s[1..] != [] && Alnum(s[1]))
            && (s[0] != '.' && (s[1..] == [] || s[1] == '.') ==> Alnum(s[0]))
  {
    var t := s[1..];
    if RestByChars(s) {
      forall i | 0 <= i < |t|
        ensures (Alnum(t[i]) || t[i] == '-' || t[i] == '.') && (t[i] == '.' ==> DotBetween(t, i))
      {
        assert t[i] == s[i + 1];
        assert s[i + 1] == '.' ==> DotBetween(s, i + 1);
      }
      assert |s| > 1 && s[1] == '.' ==> DotBetween(s, 1);
      assert s[0] == '.' ==> DotBetween(s, 0);
    } else if RestByChars(t) && (Alnum(s[0]) || s[0] == '-' || s[0] == '.') && (s[0] == '.' ==> t != [] && Alnum(s[1]))
        && (s[0] != '.' && (t == [] || s[1] == '.') ==> Alnum(s[0])) {
      forall i | 0 <= i < |s|
        ensures (Alnum(s[i]) || s[i] == '-' || s[i] == '.') && (s[i] == '.' ==> DotBetween(s, i))
      {
        if i > 0 {
          assert s[i] == t[i - 1];
          assert t[i - 1] == '.' ==> DotBetween(t, i - 1);
        }
      }
    }
  }

  /**
   The pattern, character by character: letters, digits, hyphens and dots, with a letter or digit at
   both ends and on both sides of every dot.
   */
  lemma HostnameByChars(s: string)
    ensures IsHostname(s) <==>
            && s != [] && Alnum(s[0]) && Alnum(s[|s| - 1])
            && (forall i :: 0 <= i < |s| ==> Alnum(s[i]) || s[i] == '-' || s[i] == '.')
            && (forall i :: 0 < i < |s| - 1 && s[i] == '.' ==> Alnum(s[i - 1]) && Alnum(s[i + 1]))
  {
    RestExactly(s);
    SplitFirst(s);
    assert IsHostname(s) <==> RestOfHostname(s) && Label(Split(s, '.')[0]);
    assert s != [] && Alnum(s[0]) ==> s[0] != '.';
    if s != [] && Alnum(s[0]) && RestByChars(s) {
      forall i | 0 < i < |s| - 1 && s[i] == '.'
        ensures Alnum(s[i - 1]) && Alnum(s[i + 1])
      {
        assert DotBetween(s, i);
      }
    }
  }

  function LastPart(s: string, sep: char): string {
    var parts := Split(s, sep);
    parts[|parts| - 1]
  }

  lemma LastPartStep(s: string, sep: char)
    requires s != []
    ensures s[0] == sep || |Split(s[1..], sep)| > 1 ==> LastPart(s, sep) == LastPart(s[1..], sep)
  {
    var rest := Split(s[1..], sep);
    if s[0] == sep {
      assert Split(s, sep) == [[]] + rest;
    } else {
      assert Split(s, sep) == [[s[0]] + rest[0]] + rest[1..];
    }
  }

  lemma {:induction false} EndsInSeparator(s: string, sep: char)
    requires s != [] && s[|s| - 1] == sep
    ensures |Split(s, sep)| > 1 && LastPart(s, sep) == []
  {
    LastPartStep(s, sep);
    if |s| == 1 {
      assert Split(s[1..], sep) == [[]];
    } else {
      EndsInSeparator(s[1..], sep);
    }
  }

  /** A host name does not end in a dot. */
  lemma HostnameEnd(s: string)
    requires IsHostname(s)
    ensures s != [] && s[|s| - 1] != '.'
  {
    assert Label(LastPart(s, '.'));
    if s != [] && s[|s| - 1] == '.' {
      EndsInSeparator(s, '.');
    }
  }

  lemma LowerKeepsDots(s: string, i: nat)
    requires i < |s|
    ensures ToLower(s)[i] == '.' <==> s[i] == '.'
  {
  }
}
