# Word reduction search, modelled in Dafny

The program looks for nine-letter English words that can be cut down one letter at
a time until only "A" or "I" is left, where every intermediate string must be a
dictionary word (for example STARTLING -> STARTING -> STARING -> STRING -> STING ->
SING -> SIN -> IN -> I). Its logic has two parts:

- `checkWord`, a depth-first search with memoisation. It deletes each position of
  the word in turn. It recurses on the deletions that are dictionary words and
  stops at the first one that succeeds. Results go into a `HashMap` cache that
  lives across calls.
- the scan in `main`. It keeps the dictionary words of length `MAX_WORD_LENGTH`
  (9) for which `checkWord` succeeds, and every call shares one cache.

The model has three modules:

- `Reduction` (Reduction.dfy) is the specification. It holds the constants
  `MaxWordLength` and `ValidSingleLetterWords` and the deletion `Delete`. It defines
  `Reducible(w, words)` by recursion on the length of `w`. It also defines reduction
  chains as an independent reference definition, and proves that a word is
  `Reducible` exactly when a chain starts at it.
- `TechnicalTask` (TechnicalTask.dfy) is the imperative code. The cache is a class
  `Cache` whose field `entries: map<string, bool>` is updated in place.
  `CheckWord` is a recursive method with the source's left-to-right loop and its
  `break`. `CollectValidWords` is the
  filter/collect scan, written as a loop over the nine-letter candidates that takes
  them in an arbitrary order. `Search` is the entry point without its I/O, and it
  starts from an empty cache.
- `Examples` (Examples.dfy) works the STARTLING chain from the class comment, written
  in upper case because the accepted one-letter words are the upper-case "A" and "I".
  It also works a nine-letter word that cannot be reduced, and shows that the scan
  over a small dictionary yields exactly `{"STARTLING"}`.

The cache's consistency invariant says that each stored value equals `Reducible` of
its key. It is not a precondition. `CheckWord` and `CollectValidWords` promise that
if the cache was consistent before a call, then it is consistent afterwards and the
result equals the specification. Their other guarantees hold for any cache: the
base case, the cache hit, the store after a miss, and the cache only growing.

The empty word is modelled as the code handles it: it is not length 1, the loop
runs zero times, and `""` is cached as `false`. The code does not reject the empty
word as invalid, and neither does the model.

## Model

| member | source | states |
|---|---|---|
| `Reduction.Delete` | src/com/task/TechnicalTaskGeoWealth.java:86-89 | the candidate formed at position `i` is one character shorter than the word, and keeps the characters before `i` and after `i` in their original order |
| `Reduction.ChainReduces` | src/com/task/TechnicalTaskGeoWealth.java:56-60 | if a chain of single deletions goes through dictionary words and ends at "A" or "I", its first word is reducible, and the chain has exactly one word per letter of that word |
| `Reduction.ReducibleHasChain` | src/com/task/TechnicalTaskGeoWealth.java:56-60 | every reducible word starts such a chain of dictionary words |
| `Reduction.ReducibleIffChain` | src/com/task/TechnicalTaskGeoWealth.java:12-18 | a word is reducible exactly when a reduction chain to "A" or "I" starts at it (both directions) |
| `Reduction.SingleLetterReducible` | src/com/task/TechnicalTaskGeoWealth.java:73-75 | a one-letter word is reducible exactly when it is "A" or "I", whatever the dictionary |
| `TechnicalTask.Cache.constructor` | src/com/task/TechnicalTaskGeoWealth.java:23 | the cache starts empty |
| `TechnicalTask.CheckWord` | src/com/task/TechnicalTaskGeoWealth.java:67-104 | a one-letter word gives "is it A or I" and leaves the cache unchanged. A cached word gives its stored value and leaves the cache unchanged. Otherwise the word is cached under the returned result. No key is removed or changed. New keys are never one letter long, and each is the word itself or a strictly shorter dictionary word. If the cache was consistent before the call, it stays consistent and the result equals `Reducible(word, words)` |
| `TechnicalTask.CollectValidWords` | src/com/task/TechnicalTaskGeoWealth.java:30-34 | every result is a dictionary word of length 9, and the cache only grows. If the shared cache was consistent to begin with, the result is exactly the set of reducible nine-letter dictionary words, whatever order the candidates were taken in and whatever the cache held, and the cache stays consistent |
| `TechnicalTask.Search` | src/com/task/TechnicalTaskGeoWealth.java:23-34 | starting from an empty cache, the scan returns exactly the reducible nine-letter dictionary words |
| `Reduction.NoVocabularyDeletion` | src/com/task/TechnicalTaskGeoWealth.java:85-103 | a word whose length is not one, none of whose one-letter deletions is in the dictionary, is not reducible |
| `Examples.StartlingReducible` | src/com/task/TechnicalTaskGeoWealth.java:16-17 | STARTLING is reducible over a dictionary that holds the chain from the class comment, written in upper case |
| `Examples.BlueberryNotReducible` | src/com/task/TechnicalTaskGeoWealth.java:85-99 | over the sample dictionary, the nine-letter word BLUEBERRY has no one-letter deletion in the dictionary and is not reducible |
| `Examples.SampleValidWords` | src/com/task/TechnicalTaskGeoWealth.java:30-34 | over that sample dictionary the scan's specification yields exactly `{"STARTLING"}` |

## Left out

- `loadWordsFromUrl` (src/com/task/TechnicalTaskGeoWealth.java:46-54) is not modelled because it reads the word list over the network. The dictionary is a parameter (`set<string>`) instead. The model does not assume that it holds "A" and "I", and the proofs do not need it.
- The timing and the output in `main` (lines 28 and 36-39) are not modelled, because they are clock reads, floating point and `printf`.
- The cache is a static field in the source. Here it is a `Cache` object that is passed in explicitly. `Search` creates it empty, as the static initialiser does.
- TechnicalTask.CheckWord: its contract says that a one-letter word leaves the cache unchanged. It cannot say that the cache is not even read.
- `HashMap` and `HashSet` are modelled as Dafny `map` and `set` values. Their hashing, capacity and iteration order are not modelled. The scan takes its candidates in an arbitrary order, and its contract holds for every order.
- Strings are opaque sequences of characters. The source does no case normalisation, and neither does the model. "A" and "I" are compared as the exact upper-case strings.
- TechnicalTask.CheckWord: Java's `length()` and `substring` count UTF-16 code units, while a Dafny `string` counts Unicode scalar values. The lengths, the deletion positions and the result agree only for words with no character outside the Basic Multilingual Plane. A word list of plain letters, like the Scrabble list the program loads, meets this.
- TechnicalTask.CollectValidWords: its length-9 filter counts Unicode scalar values, not UTF-16 code units as Java does, so it agrees with the source only on words with no character outside the Basic Multilingual Plane.
- Reduction.Delete: it deletes one Unicode scalar value, where Java's `substring` deletes one UTF-16 code unit. The two differ only on characters outside the Basic Multilingual Plane.
