/**
 The specification of word reduction: a word reduces when one-letter deletions,
 each landing on a vocabulary word, lead down to "A" or "I".
 */
module Reduction {

  /** Length of the words the search reports. */
  const MaxWordLength: nat := 9

  /** The only one-letter words the search accepts as the end of a chain. */
  const ValidSingleLetterWords: set<string> := {"I", "A"}

  /** The word left after removing the character at position `i` of `w`. */
  function Delete(w: string, i: nat): (r: string)
    requires i < |w|
    ensures |r| == |w| - 1
    ensures forall k :: 0 <= k < i ==> r[k] == w[k]
    ensures forall k :: i <= k < |r| ==> r[k] == w[k + 1]
  {
    w[..i] + w[i + 1..]
  }

  /**
   `w` reduces over `words`: it is "A" or "I" when one letter long, and otherwise
   some one-letter deletion of it is in `words` and reduces in turn.
   The empty word never reduces (there is no position to delete).
   */
  ghost predicate Reducible(w: string, words: set<string>)
    decreases |w|
  {
    if |w| == 1 then
      w in ValidSingleLetterWords
    else
      exists i :: 0 <= i < |w| && Delete(w, i) in words && Reducible(Delete(w, i), words)
  }

  /** `s` is `t` with exactly one character removed, the rest in order. */
  ghost predicate IsDeletion(s: string, t: string)
  {
    exists i :: 0 <= i < |t| && s == Delete(t, i)
  }

  /**
   `chain` is a reduction chain over `words`: each word after the first is a
   vocabulary word obtained from the one before by a single deletion, and the
   last is a canonical one-letter word.
   */
  ghost predicate IsReductionChain(chain: seq<string>, words: set<string>)
  {
    && |chain| >= 1
    && chain[|chain| - 1] in ValidSingleLetterWords
    && forall k :: 1 <= k < |chain| ==> chain[k] in words && IsDeletion(chain[k], chain[k - 1])
  }

  /** The first word of a reduction chain reduces, and the chain has one word per letter. */
  lemma {:induction false} ChainReduces(chain: seq<string>, words: set<string>)
    requires IsReductionChain(chain, words)
    ensures Reducible(chain[0], words)
    ensures |chain| == |chain[0]|
    decreases |chain|
  {
    if |chain| > 1 {
      var rest := chain[1..];
      assert rest[|rest| - 1] == chain[|chain| - 1];
      forall k | 1 <= k < |rest|
        ensures rest[k] in words && IsDeletion(rest[k], rest[k - 1])
      {
        assert rest[k] == chain[k + 1] && rest[k - 1] == chain[k];
      }
      ChainReduces(rest, words);
      var i :| 0 <= i < |chain[0]| && chain[1] == Delete(chain[0], i);
      assert |chain[0]| != 1;
    }
  }

  /** A reducible word starts a reduction chain (the one the search would follow). */
  lemma {:induction false} ReducibleHasChain(w: string, words: set<string>) returns (chain: seq<string>)
    requires Reducible(w, words)
    ensures IsReductionChain(chain, words) && chain[0] == w
    decreases |w|
  {
    if |w| == 1 {
      chain := [w];
    } else {
      var i :| 0 <= i < |w| && Delete(w, i) in words && Reducible(Delete(w, i), words);
      var rest := ReducibleHasChain(Delete(w, i), words);
      chain := [w] + rest;
      forall k | 1 <= k < |chain|
        ensures chain[k] in words && IsDeletion(chain[k], chain[k - 1])
      {
        assert chain[k] == rest[k - 1];
        if k == 1 {
          assert chain[1] == Delete(w, i);
        } else {
          assert chain[k - 1] == rest[k - 2];
        }
      }
    }
  }

  /** A word is reducible exactly when a reduction chain starts at it. */
  lemma ReducibleIffChain(w: string, words: set<string>)
    ensures Reducible(w, words) <==> exists chain :: IsReductionChain(chain, words) && chain[0] == w
  {
    if Reducible(w, words) {
      var chain := ReducibleHasChain(w, words);
    }
    if chain :| IsReductionChain(chain, words) && chain[0] == w {
      ChainReduces(chain, words);
    }
  }

  /** A one-letter word reduces exactly when it is "A" or "I", whatever the vocabulary. */
  lemma SingleLetterReducible(w: string, words: set<string>)
    requires |w| == 1
    ensures Reducible(w, words) <==> w == "A" || w == "I"
  {
  }

  /**
   A word of any length but one none of whose deletions is a vocabulary word
   does not reduce: the search tries every position and recurses on none.
   */
  lemma NoVocabularyDeletion(w: string, words: set<string>)
    requires |w| != 1
    requires forall i :: 0 <= i < |w| ==> Delete(w, i) !in words
    ensures !Reducible(w, words)
  {
  }

  /** The words the search reports: vocabulary words of the target length that reduce. */
  ghost function ValidWords(words: set<string>): set<string>
  {
    set w | w in words && |w| == MaxWordLength && Reducible(w, words)
  }
}
