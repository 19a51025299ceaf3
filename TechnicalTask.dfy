/**
 The memoised search: `CheckWord` decides reducibility with a cache that it
 updates in place, and `CollectValidWords` runs it over every nine-letter
 vocabulary word, sharing one cache.
 */
module TechnicalTask {
  import opened Reduction

  /** The result cache, a map from word to previously computed result. */
  class Cache {
    var entries: map<string, bool>

    constructor ()
      ensures entries == map[]
    {
      entries := map[];
    }
  }

  /** Every cached result is the true reducibility of its key. */
  ghost predicate Consistent(entries: map<string, bool>, words: set<string>)
  {
    forall k :: k in entries ==> entries[k] == Reducible(k, words)
  }

  /** `after` keeps every key of `before` with its value. */
  ghost predicate Extends(before: map<string, bool>, after: map<string, bool>)
  {
    forall k :: k in before ==> k in after && after[k] == before[k]
  }

  /**
   What a call on `word` may add to the cache: never a one-letter word; `word`
   itself, or a strictly shorter vocabulary word reached by deletions.
   */
  ghost predicate AddedBy(k: string, word: string, words: set<string>)
  {
    |k| != 1 && (k == word || (k in words && |k| < |word|))
  }

  /**
   Whether `word` reduces to "A" or "I" through vocabulary words. One-letter
   words are answered without the cache; a cached word is answered from it;
   otherwise each position is deleted in turn, left to right, recursing on
   deletions that are vocabulary words and stopping at the first success, and
   the outcome is cached under `word`.
   */
  method CheckWord(word: string, words: set<string>, cache: Cache) returns (result: bool)
    modifies cache
    ensures |word| == 1 ==> result == (word in ValidSingleLetterWords) && cache.entries == old(cache.entries)
    ensures |word| != 1 && word in old(cache.entries) ==>
              result == old(cache.entries)[word] && cache.entries == old(cache.entries)
    ensures |word| != 1 ==> word in cache.entries && cache.entries[word] == result
    ensures Extends(old(cache.entries), cache.entries)
    ensures forall k :: k in cache.entries && k !in old(cache.entries) ==> AddedBy(k, word, words)
    ensures Consistent(old(cache.entries), words) ==>
              Consistent(cache.entries, words) && result == Reducible(word, words)
    decreases |word|
  {
    if |word| == 1 {
      return word in ValidSingleLetterWords;
    }

    if word in cache.entries {
      return cache.entries[word];
    }

    ghost var sound := Consistent(cache.entries, words);
    result := false;
    var i := 0;
    while i < |word|
      invariant 0 <= i <= |word|
      invariant !result
      invariant word !in cache.entries
      invariant Extends(old(cache.entries), cache.entries)
      invariant forall k :: k in cache.entries && k !in old(cache.entries) ==> AddedBy(k, word, words)
      invariant sound ==> Consistent(cache.entries, words)
      invariant sound ==> forall j :: 0 <= j < i ==> !(Delete(word, j) in words && Reducible(Delete(word, j), words))
    {
      var partOne := word[..i];
      var partTwo := word[i + 1..];
      var newWord := partOne + partTwo;
      assert newWord == Delete(word, i);

      if newWord in words {
        var reducible := CheckWord(newWord, words, cache);
        if reducible {
          assert sound ==> Reducible(word, words);
          result := true;
          break;
        }
      }
      i := i + 1;
    }

    cache.entries := cache.entries[word := result];
  }

  /**
   The scan in the entry point: keep the vocabulary words of length
   `MaxWordLength` on which `CheckWord` succeeds, all calls sharing `cache`.
   Candidates are taken in no particular order.
   */
  method CollectValidWords(wordsSet: set<string>, cache: Cache) returns (validWords: set<string>)
    modifies cache
    ensures validWords <= wordsSet
    ensures forall w :: w in validWords ==> |w| == MaxWordLength
    ensures Extends(old(cache.entries), cache.entries)
    ensures Consistent(old(cache.entries), wordsSet) ==>
              Consistent(cache.entries, wordsSet) && validWords == ValidWords(wordsSet)
  {
    var candidates := set w | w in wordsSet && |w| == MaxWordLength;
    ghost var sound := Consistent(cache.entries, wordsSet);
    validWords := {};
    var remaining := candidates;
    while remaining != {}
      invariant remaining <= candidates
      invariant validWords <= candidates - remaining
      invariant Extends(old(cache.entries), cache.entries)
      invariant sound ==> Consistent(cache.entries, wordsSet)
      invariant sound ==> forall w :: w in candidates - remaining ==> (w in validWords <==> Reducible(w, wordsSet))
      decreases remaining
    {
      var word :| word in remaining;
      var ok := CheckWord(word, wordsSet, cache);
      if ok {
        validWords := validWords + {word};
      }
      remaining := remaining - {word};
    }
    assert candidates - remaining == candidates;
  }

  /**
   The entry point without its I/O: the vocabulary is given, the cache starts
   empty, and the result is exactly the reducible nine-letter vocabulary words.
   */
  method Search(wordsSet: set<string>) returns (validWords: set<string>)
    ensures validWords == ValidWords(wordsSet)
  {
    var cache := new Cache();
    validWords := CollectValidWords(wordsSet, cache);
  }
}
