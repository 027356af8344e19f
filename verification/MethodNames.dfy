/** The names of methods that RBS can write, against the regular expression they have to match. */
module MethodNames {
  import Collector

  /** Regular expressions over whole strings; a class lists ranges of characters. */
  datatype Regex =
    | Class(ranges: seq<(char, char)>)
    | Word(word: string)
    | Then(first: Regex, second: Regex)
    | Star(repeated: Regex)
    | Maybe(optional: Regex)
    | Either(alternatives: seq<Regex>)

  predicate InClass(ranges: seq<(char, char)>, c: char) {
    exists i :: 0 <= i < |ranges| && ranges[i].0 <= c <= ranges[i].1
  }

  ghost predicate Matches(r: Regex, s: string)
    decreases r, |s|
  {
    match r
    case Class(ranges) => |s| == 1 && InClass(ranges, s[0])
    case Word(word) => s == word
    case Then(first, second) => exists k :: 0 <= k <= |s| && Matches(first, s[..k]) && Matches(second, s[k..])
    case Star(repeated) => s == "" || exists k :: 0 < k <= |s| && Matches(repeated, s[..k]) && Matches(r, s[k..])
    case Maybe(optional) => s == "" || Matches(optional, s)
    case Either(alternatives) => exists i :: 0 <= i < |alternatives| && Matches(alternatives[i], s)
  }

  const LETTER := Class([('a', 'z'), ('A', 'Z'), ('_', '_')])
  const WORD_CHARACTER := Class([('a', 'z'), ('A', 'Z'), ('0', '9'), ('_', '_')])
  const SUFFIX := Class([('!', '!'), ('?', '?'), ('=', '=')])
  const IDENTIFIER := Then(LETTER, Then(Star(WORD_CHARACTER), Maybe(SUFFIX)))

  const OPERATOR_WORDS := [
    "+", "-", "*", "/", "%", "**", "==", "!=", "===", "<=>", "<=", ">=", "<", ">", "<<", ">>", "&", "|", "^", "~", "!",
    "`", "=~", "!~", "[]", "[]="]

  /** The expression the collector matches method names with. */
  ghost predicate MatchesName(s: string) {
    Matches(IDENTIFIER, s) || exists i :: 0 <= i < |OPERATOR_WORDS| && Matches(Word(OPERATOR_WORDS[i]), s)
  }

  lemma LetterClass(c: char)
    ensures InClass(LETTER.ranges, c) <==> Collector.IsLetter(c)
  {
    var rs := LETTER.ranges;
    assert rs[0] == ('a', 'z') && rs[1] == ('A', 'Z') && rs[2] == ('_', '_');
  }

  lemma WordClass(c: char)
    ensures InClass(WORD_CHARACTER.ranges, c) <==> Collector.IsWordCharacter(c)
  {
    var rs := WORD_CHARACTER.ranges;
    assert rs[0] == ('a', 'z') && rs[1] == ('A', 'Z') && rs[2] == ('0', '9') && rs[3] == ('_', '_');
  }

  lemma SuffixClass(c: char)
    ensures InClass(SUFFIX.ranges, c) <==> c in {'!', '?', '='}
  {
    var rs := SUFFIX.ranges;
    assert rs[0] == ('!', '!') && rs[1] == ('?', '?') && rs[2] == ('=', '=');
  }

  lemma {:induction false} StarOfClass(ranges: seq<(char, char)>, s: string)
    ensures Matches(Star(Class(ranges)), s) <==> forall i :: 0 <= i < |s| ==> InClass(ranges, s[i])
    decreases |s|
  {
    hide InClass;
    if s != "" {
      StarOfClass(ranges, s[1..]);
      assert s[..1] == [s[0]];
      if forall i :: 0 <= i < |s| ==> InClass(ranges, s[i]) {
        assert Matches(Class(ranges), s[..1]) && Matches(Star(Class(ranges)), s[1..]);
      }
      if Matches(Star(Class(ranges)), s) {
        var k :| 0 < k <= |s| && Matches(Class(ranges), s[..k]) && Matches(Star(Class(ranges)), s[k..]);
        assert k == 1;
        forall i | 0 <= i < |s|
          ensures InClass(ranges, s[i])
        {
          assert i > 0 ==> InClass(ranges, s[1..][i - 1]);
        }
      }
    }
  }

  /** A part of word characters and possibly a suffix. */
  lemma TailMatches(s: string)
    ensures Matches(Then(Star(WORD_CHARACTER), Maybe(SUFFIX)), s) <==>
              (forall i :: 0 <= i < |s| ==> Collector.IsWordCharacter(s[i]))
              || (s != "" && s[|s| - 1] in {'!', '?', '='}
                  && forall i :: 0 <= i < |s| - 1 ==> Collector.IsWordCharacter(s[i]))
  {
    hide InClass, Collector.IsWordCharacter;
    forall k | 0 <= k <= |s|
      ensures Matches(Star(WORD_CHARACTER), s[..k]) <==> forall i :: 0 <= i < k ==> Collector.IsWordCharacter(s[i])
      ensures Matches(Maybe(SUFFIX), s[k..]) <==> k == |s| || (k == |s| - 1 && s[k] in {'!', '?', '='})
    {
      StarOfClass(WORD_CHARACTER.ranges, s[..k]);
      forall i | 0 <= i < k
        ensures InClass(WORD_CHARACTER.ranges, s[..k][i]) <==> Collector.IsWordCharacter(s[i])
      {
        WordClass(s[i]);
      }
      if k < |s| {
        SuffixClass(s[k]);
      }
    }
    if forall i :: 0 <= i < |s| ==> Collector.IsWordCharacter(s[i]) {
      assert Matches(Star(WORD_CHARACTER), s[..|s|]) && Matches(Maybe(SUFFIX), s[|s|..]);
    }
    if s != "" && s[|s| - 1] in {'!', '?', '='} && forall i :: 0 <= i < |s| - 1 ==> Collector.IsWordCharacter(s[i]) {
      assert Matches(Star(WORD_CHARACTER), s[..|s| - 1]) && Matches(Maybe(SUFFIX), s[|s| - 1..]);
    }
  }

  lemma IdentifierMatches(s: string)
    ensures Matches(IDENTIFIER, s) <==>
              Collector.IsIdentifier(s)
              || (s != "" && s[|s| - 1] in {'!', '?', '='} && Collector.IsIdentifier(s[..|s| - 1]))
  {
    hide InClass, Collector.IsWordCharacter, Collector.IsLetter;
    if s != "" {
      LetterClass(s[0]);
      TailMatches(s[1..]);
      LetterIsWord(s[0]);
      assert s[..1] == [s[0]];
      assert Matches(IDENTIFIER, s) <==>
               Matches(LETTER, s[..1]) && Matches(Then(Star(WORD_CHARACTER), Maybe(SUFFIX)), s[1..]) by {
        if k :| 0 <= k <= |s| && Matches(LETTER, s[..k]) && Matches(Then(Star(WORD_CHARACTER), Maybe(SUFFIX)), s[k..]) {
          assert k == 1;
        }
      }
      SuffixIsNoWord(s[|s| - 1]);
      TailIsIdentifier(s);
    }
  }

  lemma LetterIsWord(c: char)
    ensures Collector.IsLetter(c) ==> Collector.IsWordCharacter(c)
  {
  }

  lemma SuffixIsNoWord(c: char)
    ensures c in {'!', '?', '='} ==> !Collector.IsWordCharacter(c)
  {
  }

  lemma TailIsIdentifier(s: string)
    requires s != "" && (Collector.IsLetter(s[0]) ==> Collector.IsWordCharacter(s[0]))
    ensures Collector.IsIdentifier(s) <==>
              Collector.IsLetter(s[0]) && forall i :: 0 <= i < |s[1..]| ==> Collector.IsWordCharacter(s[1..][i])
    ensures |s| > 1 ==>
              (Collector.IsIdentifier(s[..|s| - 1]) <==>
                 Collector.IsLetter(s[0]) && forall i :: 0 <= i < |s[1..]| - 1 ==> Collector.IsWordCharacter(s[1..][i]))
  {
    hide Collector.IsLetter, Collector.IsWordCharacter;
    forall i | 0 < i < |s|
      ensures s[i] == s[1..][i - 1]
    {
    }
  }

  lemma SameOperators()
    ensures OPERATOR_WORDS == Collector.OPERATORS
  {
  }

  lemma OperatorMatches(s: string)
    ensures (exists i :: 0 <= i < |OPERATOR_WORDS| && Matches(Word(OPERATOR_WORDS[i]), s)) <==> s in Collector.OPERATORS
  {
    SameOperators();
    var words := OPERATOR_WORDS;
    SomeWord(words, s);
  }

  lemma SomeWord(words: seq<string>, s: string)
    ensures (exists i :: 0 <= i < |words| && Matches(Word(words[i]), s)) <==> s in words
  {
    if s in words {
      var i :| 0 <= i < |words| && words[i] == s;
      assert Matches(Word(words[i]), s);
    }
  }

  /** For every string: it is a valid method name if and only if it matches the expression. */
  lemma ValidNamesMatch(s: string)
    ensures Collector.ValidMethodName(s) <==> MatchesName(s)
  {
    hide Matches, Collector.IsIdentifier;
    IdentifierMatches(s);
    OperatorMatches(s);
  }
}
