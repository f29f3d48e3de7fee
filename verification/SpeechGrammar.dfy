/**
 The closed grammar of recorded speech
 (scripts/r4b-evidence/nvda-adapter/scratchpad/globalPlugins/fluyoPreflightSpeech.py,
 `_normalize`): white space is collapsed, and what remains must be one of a few
 fixed texts or a sequence of known atoms joined by single spaces. The loop over
 reachable positions decides the latter.
 */
module SpeechGrammar {
  import opened Basics

  const MAX_TEXT_CHARS := 2048

  /**
   The atoms, Unicode's white space and its canonical composition, and the pattern
   of texts that are refused in any case.
   */
  datatype Grammar = Grammar(
    atoms: seq<string>, isSpace: char -> bool, compose: string -> string, isForbidden: string -> bool)

  // ---------------------------------------------------------------- words

  function Join(words: seq<string>): string {
    if words == [] then "" else if |words| == 1 then words[0] else words[0] + " " + Join(words[1..])
  }

  function WordLength(isSpace: char -> bool, s: string): (n: nat)
    ensures n <= |s| && (n < |s| ==> isSpace(s[n])) && (forall i | 0 <= i < n :: !isSpace(s[i]))
    decreases |s|
  {
    if s == "" || isSpace(s[0]) then 0 else 1 + WordLength(isSpace, s[1..])
  }

  /** The maximal runs without white space. */
  function Words(isSpace: char -> bool, s: string): seq<string>
    decreases |s|
  {
    if s == "" then []
    else if isSpace(s[0]) then Words(isSpace, s[1..])
    else
      var n := WordLength(isSpace, s);
      assert n > 0;
      [s[..n]] + Words(isSpace, s[n..])
  }

  predicate IsWord(isSpace: char -> bool, word: string) {
    word != "" && forall i | 0 <= i < |word| :: !isSpace(word[i])
  }

  predicate AreWords(isSpace: char -> bool, words: seq<string>) {
    forall i | 0 <= i < |words| :: IsWord(isSpace, words[i])
  }

  lemma {:induction false} WordsAreWords(isSpace: char -> bool, s: string)
    ensures AreWords(isSpace, Words(isSpace, s))
    decreases |s|
  {
    if s == "" {
    } else if isSpace(s[0]) {
      WordsAreWords(isSpace, s[1..]);
    } else {
      WordsAreWords(isSpace, s[WordLength(isSpace, s)..]);
    }
  }

  lemma {:induction false} FirstWord(isSpace: char -> bool, word: string, rest: string)
    requires IsWord(isSpace, word) && (rest != "" ==> isSpace(rest[0]))
    ensures Words(isSpace, word + rest) == [word] + Words(isSpace, rest)
  {
    var s := word + rest;
    var n := WordLength(isSpace, s);
    assert s[0] == word[0];
    assert forall i | 0 <= i < |word| :: s[i] == word[i] && !isSpace(s[i]);
    assert rest != "" ==> s[|word|] == rest[0];
    assert n == |word|;
    assert s[..n] == word && s[n..] == rest;
  }

  /** Splitting undoes joining. */
  lemma {:induction false} WordsOfJoin(isSpace: char -> bool, words: seq<string>)
    requires isSpace(' ') && AreWords(isSpace, words)
    ensures Words(isSpace, Join(words)) == words
  {
    if words == [] {
    } else if |words| == 1 {
      FirstWord(isSpace, words[0], "");
      assert words[0] + "" == words[0];
    } else {
      var rest := " " + Join(words[1..]);
      assert rest[1..] == Join(words[1..]);
      WordsOfJoin(isSpace, words[1..]);
      FirstWord(isSpace, words[0], rest);
      assert words[0] + " " + Join(words[1..]) == words[0] + rest;
    }
  }

  function Collapsed(isSpace: char -> bool, s: string): string { Join(Words(isSpace, s)) }

  /** Nothing is left to strip at either end. */
  lemma {:induction false} JoinHasNoEdges(isSpace: char -> bool, words: seq<string>)
    requires AreWords(isSpace, words)
    ensures words != [] ==> var s := Join(words); s != "" && !isSpace(s[0]) && !isSpace(s[|s| - 1])
  {
    if |words| == 1 {
      assert IsWord(isSpace, words[0]);
    } else if |words| > 1 {
      assert IsWord(isSpace, words[0]);
      JoinHasNoEdges(isSpace, words[1..]);
    }
  }

  // ---------------------------------------------------------------- the grammar

  predicate AreAtoms(atoms: seq<string>, words: seq<string>) {
    forall i | 0 <= i < |words| :: words[i] in atoms
  }

  /** A non-empty sequence of atoms with single spaces between them. */
  ghost predicate IsSentence(atoms: seq<string>, s: string) {
    exists words: seq<string> :: words != [] && AreAtoms(atoms, words) && Join(words) == s
  }

  /** A sequence of atoms, each followed by a space, ends here. */
  ghost predicate Reaches(atoms: seq<string>, s: string, i: nat)
    requires i <= |s|
  {
    i == 0 || exists words: seq<string> :: words != [] && AreAtoms(atoms, words) && Join(words) + " " == s[..i]
  }

  /** The atom stands at this position. */
  predicate StartsAt(s: string, atom: string, start: nat) {
    start + |atom| <= |s| && s[start..start + |atom|] == atom
  }

  /** The atom leads from one position to a later one. */
  predicate LeadsTo(s: string, atom: string, start: nat, end: nat) {
    && StartsAt(s, atom, start) && start + |atom| < |s| && s[start + |atom|] == ' ' && end == start + |atom| + 1
  }

  predicate Ends(s: string, atom: string, start: nat) { StartsAt(s, atom, start) && start + |atom| == |s| }

  lemma {:induction false} JoinOneMore(words: seq<string>, word: string)
    ensures Join(words + [word]) == if words == [] then word else Join(words) + " " + word
  {
    if |words| == 0 {
      assert words + [word] == [word];
    } else {
      assert (words + [word])[1..] == words[1..] + [word];
      JoinOneMore(words[1..], word);
      if |words| == 1 {
        assert words[1..] == [];
      } else {
        assert words[0] + " " + (Join(words[1..]) + " " + word) == words[0] + " " + Join(words[1..]) + " " + word;
      }
    }
  }

  lemma WordsBefore(atoms: seq<string>, s: string, start: nat) returns (words: seq<string>)
    requires start <= |s| && Reaches(atoms, s, start)
    ensures AreAtoms(atoms, words) && (words == [] <==> start == 0) && (start > 0 ==> Join(words) + " " == s[..start])
  {
    if start == 0 { words := []; }
    else { words :| words != [] && AreAtoms(atoms, words) && Join(words) + " " == s[..start]; }
  }

  lemma AtomEndsSentence(atoms: seq<string>, s: string, atom: string, start: nat)
    requires start <= |s| && Reaches(atoms, s, start) && atom in atoms && Ends(s, atom, start)
    ensures IsSentence(atoms, s)
  {
    var words := WordsBefore(atoms, s, start);
    JoinOneMore(words, atom);
    assert s == s[..start] + atom;
    assert words + [atom] != [];
  }

  lemma AtomLeadsOn(atoms: seq<string>, s: string, atom: string, start: nat, end: nat)
    requires start <= |s| && Reaches(atoms, s, start) && atom in atoms && LeadsTo(s, atom, start, end)
    ensures Reaches(atoms, s, end)
  {
    var words := WordsBefore(atoms, s, start);
    JoinOneMore(words, atom);
    assert s[..end] == s[..start] + atom + " ";
    assert words + [atom] != [];
    if words != [] { assert Join(words) + " " + atom + " " == s[..start] + atom + " "; }
  }

  lemma SplitOff(stem: string, word: string)
    ensures (stem + word)[..|stem|] == stem && (stem + word)[|stem|..] == word
  {
  }

  /** What stands before the last word. */
  function Stem(words: seq<string>): string
    requires words != []
  {
    if |words| == 1 then "" else Join(words[..|words| - 1]) + " "
  }

  lemma StemAndLastWord(words: seq<string>)
    requires words != []
    ensures Join(words) == Stem(words) + words[|words| - 1]
  {
    hide Join;
    var n := |words| - 1;
    var before, word := words[..n], words[n];
    assert words == before + [word];
    JoinOneMore(before, word);
    if n == 0 {
      assert Join(words) == word == "" + word;
    } else {
      assert Join(words) == Join(before) + " " + word;
    }
  }

  lemma StemIsReached(atoms: seq<string>, s: string, words: seq<string>)
    requires words != [] && AreAtoms(atoms, words) && |Stem(words)| <= |s| && s[..|Stem(words)|] == Stem(words)
    ensures Reaches(atoms, s, |Stem(words)|)
  {
    hide Join;
    var n := |words| - 1;
    if n > 0 { assert AreAtoms(atoms, words[..n]) && words[..n] != []; }
  }

  lemma InThree(s: string, stem: string, atom: string)
    requires s == stem + atom + " "
    ensures var n := |stem| + |atom|;
      |s| == n + 1 && s[..|stem|] == stem && s[|stem|..n] == atom && s[n] == ' '
  {
  }

  /** Every reached position but the first is led to from an earlier reached one. */
  lemma ReachedFromBefore(atoms: seq<string>, s: string, end: nat) returns (atom: string, start: nat)
    requires 0 < end <= |s| && Reaches(atoms, s, end)
    ensures start < end && Reaches(atoms, s, start) && atom in atoms && LeadsTo(s, atom, start, end)
  {
    var words :| words != [] && AreAtoms(atoms, words) && Join(words) + " " == s[..end];
    var stem := Stem(words);
    atom := words[|words| - 1];
    start := |stem|;
    StemAndLastWord(words);
    hide Join, Stem;
    assert s[..end] == stem + atom + " ";
    InThree(s[..end], stem, atom);
    assert s[..start] == s[..end][..start];
    assert s[0..end] == s[..end];
    SliceOfSlice(s, 0, end, start, start + |atom|);
    assert s[end - 1] == s[..end][end - 1];
    StemIsReached(atoms, s, words);
  }

  lemma SentenceEndsInAtom(atoms: seq<string>, s: string) returns (atom: string, start: nat)
    requires IsSentence(atoms, s)
    ensures start <= |s| && Reaches(atoms, s, start) && atom in atoms && Ends(s, atom, start)
  {
    var words :| words != [] && AreAtoms(atoms, words) && Join(words) == s;
    StemAndLastWord(words);
    hide Join, Stem;
    atom := words[|words| - 1];
    start := |Stem(words)|;
    SplitOff(Stem(words), atom);
    StemIsReached(atoms, s, words);
  }

  // ---------------------------------------------------------------- the loop

  /** Whether the text is a sequence of atoms joined by single spaces. */
  method DecideSentence(atoms: seq<string>, s: string) returns (accepted: bool)
    ensures accepted <==> IsSentence(atoms, s)
  {
    hide Reaches, IsSentence;
    assert Reaches(atoms, s, 0) by { FirstIsReached(atoms, s); }
    var reachable: set<nat> := {0};
    for start := 0 to |s| + 1
      invariant 0 in reachable && forall i | i in reachable :: i <= |s| && Reaches(atoms, s, i)
      invariant forall i, atom, end | i in reachable && i < start && atom in atoms && LeadsTo(s, atom, i, end) :: end in reachable
      invariant forall i, atom | i in reachable && i < start && atom in atoms :: !Ends(s, atom, i)
    {
      if start in reachable {
        for k := 0 to |atoms|
          invariant start in reachable && 0 in reachable && forall i | i in reachable :: i <= |s| && Reaches(atoms, s, i)
          invariant forall i, atom, end | i in reachable && i < start && atom in atoms && LeadsTo(s, atom, i, end) :: end in reachable
          invariant forall i, atom | i in reachable && i < start && atom in atoms :: !Ends(s, atom, i)
          invariant forall atom, end | atom in atoms[..k] && LeadsTo(s, atom, start, end) :: end in reachable
          invariant forall atom | atom in atoms[..k] :: !Ends(s, atom, start)
        {
          var atom := atoms[k];
          assert atoms[..k + 1] == atoms[..k] + [atom];
          if StartsAt(s, atom, start) {
            var end := start + |atom|;
            if end == |s| {
              AtomEndsSentence(atoms, s, atom, start);
              return true;
            }
            if s[end] == ' ' {
              AtomLeadsOn(atoms, s, atom, start, end + 1);
              reachable := reachable + {end + 1};
            }
          }
        }
        assert atoms[..|atoms|] == atoms;
      }
    }
    if IsSentence(atoms, s) {
      var atom, start := SentenceEndsInAtom(atoms, s);
      AllReachedAreFound(atoms, s, reachable, start);
    }
    return false;
  }

  lemma FirstIsReached(atoms: seq<string>, s: string)
    ensures Reaches(atoms, s, 0)
  {
  }

  lemma {:induction false} AllReachedAreFound(atoms: seq<string>, s: string, reachable: set<nat>, i: nat)
    requires i <= |s| && Reaches(atoms, s, i) && 0 in reachable
    requires forall j, atom, end | j in reachable && atom in atoms && LeadsTo(s, atom, j, end) :: end in reachable
    ensures i in reachable
    decreases i
  {
    if i > 0 {
      var atom, start := ReachedFromBefore(atoms, s, i);
      AllReachedAreFound(atoms, s, reachable, start);
    }
  }

  // ---------------------------------------------------------------- normalising

  function Broken(s: string): string {
    seq(|s|, i requires 0 <= i < |s| => if s[i] == '\r' || s[i] == '\n' then ' ' else s[i])
  }

  /** One of the digits 1 to 4, 180 times. */
  predicate IsDigitRun(s: string) {
    |s| == 180 && '1' <= s[0] <= '4' && forall i | 0 <= i < |s| :: s[i] == s[0]
  }

  const LONG_PROMPT := seq(600, _ => 'P')

  ghost predicate IsClosed(g: Grammar, s: string) {
    && |s| <= MAX_TEXT_CHARS && !g.isForbidden(s)
    && (s == "" || s == "A" || s == LONG_PROMPT || IsDigitRun(s) || IsSentence(g.atoms, s))
  }

  function Spaced(g: Grammar, text: string): string { Collapsed(g.isSpace, Broken(g.compose(text))) }

  ghost function Normalized(g: Grammar, text: string): Option<string> {
    if IsClosed(g, Spaced(g, text)) then Some(Spaced(g, text)) else None
  }

  method Normalize(g: Grammar, text: string) returns (r: Option<string>)
    ensures r == Normalized(g, text)
  {
    hide IsSentence;
    var s := Spaced(g, text);
    if |s| > MAX_TEXT_CHARS || g.isForbidden(s) {
      return None;
    }
    if s == "" || s == "A" || s == LONG_PROMPT || IsDigitRun(s) {
      return Some(s);
    }
    var accepted := DecideSentence(g.atoms, s);
    return if accepted then Some(s) else None;
  }

  lemma {:induction false} JoinedCharacters(isSpace: char -> bool, words: seq<string>, i: nat)
    requires AreWords(isSpace, words) && i < |Join(words)|
    ensures Join(words)[i] == ' ' || !isSpace(Join(words)[i])
  {
    assert IsWord(isSpace, words[0]);
    if |words| > 1 && i > |words[0]| {
      JoinedCharacters(isSpace, words[1..], i - |words[0]| - 1);
    }
  }

  /**
   Text is normalised twice, by the callback and again when it is appended. The
   second time changes nothing, for texts whose composition is already canonical.
   */
  lemma NormalizingTwiceIsOnce(g: Grammar, text: string)
    requires g.isSpace(' ') && g.isSpace('\r') && g.isSpace('\n')
    requires Normalized(g, text).Some? && g.compose(Normalized(g, text).value) == Normalized(g, text).value
    ensures Normalized(g, Normalized(g, text).value) == Normalized(g, text)
  {
    var s := Normalized(g, text).value;
    var words := Words(g.isSpace, Broken(g.compose(text)));
    WordsAreWords(g.isSpace, Broken(g.compose(text)));
    forall i | 0 <= i < |s| ensures s[i] != '\r' && s[i] != '\n' {
      JoinedCharacters(g.isSpace, words, i);
    }
    assert Broken(s) == s;
    WordsOfJoin(g.isSpace, words);
  }
}
