/** The locality-name pattern `[А-ЯЁ][а-яё]+(?:[- ][А-ЯЁ][а-яё]+)*(?:-на-[А-ЯЁ][а-яё]+)?$`.
    `Phrase` reads the pattern as written; `MatchPhrase` is the greedy recogniser that decides
    it. The pattern carries `$` but no `^`, and the validator searches for it anywhere in the
    name, so a name is accepted when some suffix of it is a phrase. */
module LocalityName {

  /** `[А-ЯЁ]` */
  predicate IsCapital(c: char)
  {
    ('А' <= c <= 'Я') || c == 'Ё'
  }

  /** `[а-яё]` */
  predicate IsSmall(c: char)
  {
    ('а' <= c <= 'я') || c == 'ё'
  }

  /** `[А-ЯЁ][а-яё]+`: a capitalised word. */
  predicate Word(w: string)
  {
    |w| >= 2 && IsCapital(w[0]) && forall k :: 1 <= k < |w| ==> IsSmall(w[k])
  }

  const Na: string := "-на-"

  /** The pattern read as written: a word, then what may follow a word. */
  ghost predicate Phrase(s: string)
    decreases |s|, 1
  {
    exists k :: 2 <= k <= |s| && Word(s[..k]) && Continuation(s[k..])
  }

  /** What may follow a word: nothing, the closing `-на-` word, or a separator and another phrase. */
  ghost predicate Continuation(s: string)
    decreases |s|, 0
  {
    || s == []
    || (|s| > 4 && s[..4] == Na && Word(s[4..]))
    || (|s| > 0 && (s[0] == '-' || s[0] == ' ') && Phrase(s[1..]))
  }

  /** Length of the run of `[а-яё]` that starts `s`. */
  function SmallRun(s: string): (n: nat)
    ensures n <= |s|
    ensures forall k :: 0 <= k < n ==> IsSmall(s[k])
    ensures n < |s| ==> !IsSmall(s[n])
  {
    if s == [] || !IsSmall(s[0]) then 0 else 1 + SmallRun(s[1..])
  }

  /** Greedy recogniser of `Phrase`: a word takes every small letter that follows its capital. */
  predicate MatchPhrase(s: string)
    decreases |s|, 1
  {
    |s| >= 2 && IsCapital(s[0]) && IsSmall(s[1]) && MatchContinuation(s[1 + SmallRun(s[1..])..])
  }

  predicate MatchContinuation(s: string)
    decreases |s|, 0
  {
    || s == []
    || (|s| > 4 && s[..4] == Na && Word(s[4..]))
    || (|s| > 0 && (s[0] == '-' || s[0] == ' ') && MatchPhrase(s[1..]))
  }

  /** Any run of small letters that ends at a non-small letter, or at the end, is the run. */
  lemma SmallRunExact(t: string, m: nat)
    requires m <= |t|
    requires forall i :: 0 <= i < m ==> IsSmall(t[i])
    requires m == |t| || !IsSmall(t[m])
    ensures SmallRun(t) == m
  {
  }

  /** A word that is followed by a continuation is exactly the word the recogniser reads. */
  lemma GreedyWord(s: string, k: int)
    requires 2 <= k <= |s| && Word(s[..k]) && Continuation(s[k..])
    ensures k == 1 + SmallRun(s[1..])
  {
    var t := s[1..];
    forall i | 0 <= i < k - 1 ensures IsSmall(t[i]) {
      assert t[i] == s[..k][i + 1];
    }
    if k < |s| {
      assert s[k..][0] == s[k];
      assert t[k - 1] == s[k];
    }
    SmallRunExact(t, k - 1);
  }

  /** The greedy recogniser decides the pattern exactly. */
  lemma {:induction false} MatchPhraseCorrect(s: string)
    ensures MatchPhrase(s) <==> Phrase(s)
    decreases |s|, 1
  {
    if |s| >= 2 && IsCapital(s[0]) && IsSmall(s[1]) {
      var n := 1 + SmallRun(s[1..]);
      assert Word(s[..n]) by {
        forall i | 1 <= i < n ensures IsSmall(s[..n][i]) {
          assert s[..n][i] == s[1..][i - 1];
        }
      }
      MatchContinuationCorrect(s[n..]);
      if Phrase(s) {
        var k :| 2 <= k <= |s| && Word(s[..k]) && Continuation(s[k..]);
        GreedyWord(s, k);
      }
    }
  }

  lemma {:induction false} MatchContinuationCorrect(s: string)
    ensures MatchContinuation(s) <==> Continuation(s)
    decreases |s|, 0
  {
    if |s| > 0 {
      MatchPhraseCorrect(s[1..]);
    }
  }

  /** The name contains a phrase that runs to its end (`$`). */
  ghost predicate Matches(s: string)
  {
    exists i :: 0 <= i <= |s| && Phrase(s[i..])
  }

  /** Tries every suffix in turn. */
  predicate Search(s: string)
  {
    MatchPhrase(s) || (s != [] && Search(s[1..]))
  }

  lemma {:induction false} SearchCorrect(s: string)
    ensures Search(s) <==> Matches(s)
  {
    MatchPhraseCorrect(s);
    assert s[0..] == s;
    if s != [] {
      SearchCorrect(s[1..]);
      assert forall i :: 0 <= i < |s| ==> s[1..][i..] == s[i + 1..];
      if Matches(s) && !MatchPhrase(s) {
        var i :| 0 <= i <= |s| && Phrase(s[i..]);
        assert i > 0;
        assert Phrase(s[1..][i - 1..]);
      }
    }
  }

  /** A phrase starts with a capital and ends with a small letter. */
  lemma {:induction false} PhraseEnds(s: string)
    requires Phrase(s)
    ensures IsCapital(s[0]) && IsSmall(s[|s| - 1])
    decreases |s|
  {
    var k :| 2 <= k <= |s| && Word(s[..k]) && Continuation(s[k..]);
    assert s[..k][0] == s[0];
    var t := s[k..];
    if t == [] {
      assert s[..k][k - 1] == s[|s| - 1];
    } else if |t| > 4 && t[..4] == Na && Word(t[4..]) {
      assert t[4..][|t| - 5] == s[|s| - 1];
    } else {
      PhraseEnds(t[1..]);
      assert t[1..][|t| - 2] == s[|s| - 1];
    }
  }

  /** `PydanticLocality.name`: at least one character, and the pattern found in it. */
  predicate Valid(s: string)
  {
    |s| >= 1 && Search(s)
  }

  /** A name is accepted exactly when a suffix of it is a phrase. */
  lemma ValidIsMatches(s: string)
    ensures Valid(s) <==> Matches(s)
  {
    SearchCorrect(s);
    if Matches(s) {
      var i :| 0 <= i <= |s| && Phrase(s[i..]);
      PhraseEnds(s[i..]);
    }
  }

  /** Every accepted name ends with a small Cyrillic letter, whether or not the pattern is
      anchored at the start. */
  lemma ValidEndsSmall(s: string)
    requires Valid(s)
    ensures IsSmall(s[|s| - 1])
  {
    ValidIsMatches(s);
    var i :| 0 <= i <= |s| && Phrase(s[i..]);
    PhraseEnds(s[i..]);
    assert s[i..][|s| - i - 1] == s[|s| - 1];
  }

  /** A name with no capital letter is rejected: no suffix of it can start a phrase. */
  lemma NoCapitalRejected(s: string)
    requires forall i :: 0 <= i < |s| ==> !IsCapital(s[i])
    ensures !Valid(s)
  {
    ValidIsMatches(s);
  }

  lemma MoscowAccepted()
    ensures Valid("Москва")
  {
    var name := "Москва";
    assert name[..6] == name;
    assert Continuation(name[6..]);
    assert Phrase(name);
    MatchPhraseCorrect(name);
  }

  lemma RostovOnDonAccepted()
    ensures Valid("Ростов-на-Дону")
  {
    var name := "Ростов-на-Дону";
    var tail := name[6..];
    assert tail == "-на-Дону";
    assert tail[..4] == Na;
    assert Word(tail[4..]);
    assert Word(name[..6]);
    assert Phrase(name);
    MatchPhraseCorrect(name);
  }

  lemma LowercaseMoscowRejected()
    ensures !Valid("москва")
  {
    NoCapitalRejected("москва");
  }
}
