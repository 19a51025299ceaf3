/**
 The example chain from the class comment, written here in upper case (the
 accepted one-letter words are the upper-case "A" and "I"), worked out against a
 small vocabulary:
 STARTLING -> STARTING -> STARING -> STRING -> STING -> SING -> SIN -> IN -> I.
 */
module Examples {
  import opened Reduction

  const SampleWords: set<string> :=
    {"A", "I", "IN", "SIN", "SING", "STING", "STRING", "STARING", "STARTING", "STARTLING", "BLUEBERRY", "CAT"}

  /** One link of a chain: a vocabulary deletion that reduces makes its source reduce. */
  lemma Step(w: string, i: nat, words: set<string>)
    requires |w| != 1 && i < |w| && Delete(w, i) in words && Reducible(Delete(w, i), words)
    ensures Reducible(w, words)
  {
  }

  /** IN -> I. */
  lemma InReducible()
    ensures Reducible("IN", SampleWords)
  {
    assert Delete("IN", 1) == "I";
    Step("IN", 1, SampleWords);
  }

  /** SIN -> IN. */
  lemma SinReducible()
    ensures Reducible("SIN", SampleWords)
  {
    InReducible();
    assert Delete("SIN", 0) == "IN";
    Step("SIN", 0, SampleWords);
  }

  /** SING -> SIN. */
  lemma SingReducible()
    ensures Reducible("SING", SampleWords)
  {
    SinReducible();
    assert Delete("SING", 3) == "SIN";
    Step("SING", 3, SampleWords);
  }

  /** STING -> SING. */
  lemma StingReducible()
    ensures Reducible("STING", SampleWords)
  {
    SingReducible();
    assert Delete("STING", 1) == "SING";
    Step("STING", 1, SampleWords);
  }

  /** STRING -> STING. */
  lemma StringReducible()
    ensures Reducible("STRING", SampleWords)
  {
    StingReducible();
    assert Delete("STRING", 2) == "STING";
    Step("STRING", 2, SampleWords);
  }

  /** STARING -> STRING. */
  lemma StaringReducible()
    ensures Reducible("STARING", SampleWords)
  {
    StringReducible();
    assert Delete("STARING", 2) == "STRING";
    Step("STARING", 2, SampleWords);
  }

  /** STARTING -> STARING. */
  lemma StartingReducible()
    ensures Reducible("STARTING", SampleWords)
  {
    StaringReducible();
    assert Delete("STARTING", 4) == "STARING";
    Step("STARTING", 4, SampleWords);
  }

  /** STARTLING -> STARTING, the chain given in the class comment. */
  lemma StartlingReducible()
    ensures Reducible("STARTLING", SampleWords)
  {
    StartingReducible();
    assert Delete("STARTLING", 5) == "STARTING";
    Step("STARTLING", 5, SampleWords);
  }

  /** The only eight-letter sample word starts with 'S'. */
  lemma EightLettersNotSample(d: string)
    requires |d| == 8 && d[0] != 'S'
    ensures d !in SampleWords
  {
    assert d != "STARTING";
  }

  /** BLUEBERRY: none of its deletions is a sample word, so it does not reduce. */
  lemma BlueberryNotReducible()
    ensures !Reducible("BLUEBERRY", SampleWords)
  {
    forall i | 0 <= i < 9
      ensures Delete("BLUEBERRY", i) !in SampleWords
    {
      var d := Delete("BLUEBERRY", i);
      assert d[0] != 'S';
      EightLettersNotSample(d);
    }
    NoVocabularyDeletion("BLUEBERRY", SampleWords);
  }

  /** The nine-letter sample words are STARTLING and BLUEBERRY. */
  lemma NineLetterSampleWords(w: string)
    requires w in SampleWords && |w| == MaxWordLength
    ensures w == "STARTLING" || w == "BLUEBERRY"
  {
  }

  /** The scan over the sample vocabulary finds exactly STARTLING. */
  lemma SampleValidWords()
    ensures ValidWords(SampleWords) == {"STARTLING"}
  {
    StartlingReducible();
    BlueberryNotReducible();
    forall w | w in ValidWords(SampleWords)
      ensures w == "STARTLING"
    {
      NineLetterSampleWords(w);
    }
  }
}
