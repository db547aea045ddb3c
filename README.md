# Lexicon Daily: a Dafny model of its game and ledger logic

Lexicon Daily is a small "word of the day" web widget. This project models its three
pieces of logic and the static word list they run over, and proves properties of them:

- **Word Mine** (`word_mine.dfy`, with the string operations in `text.dfy`). The player
  types words hidden in the word of the day. A guess is lower-cased and trimmed. It is then
  rejected by the first failing rule of a fixed chain: already found, shorter than three
  characters, or letters not in the word. Otherwise it is looked up in an external
  dictionary, and a confirmed guess is appended to the found words. `checkLetters` is the
  in-place strike-out loop of the source. It is proved equal to multiset inclusion of the
  lower-cased letters. The component state is a class. The dictionary is an oracle
  returning `Ok`, `NotOk` or `NetworkError`. The session invariant is proved to hold after
  every operation of the model: the found words are distinct, and each one is lower-case,
  trimmed, at least three characters long and spelled from the word. A dictionary answer
  that arrives after the word has changed is outside the model (see "Left out").
- **Quiz card** (`quiz_module.dfy`). A one-shot answer to a multiple-choice question. The
  per-option styling and icons, and the feedback line, are pure classifications. They are
  proved to agree with each other: after an answer, exactly one option is drawn correct
  and at most one is drawn wrong.
- **Completion ledger** (`quiz_storage.dfy`). A set of word ids in the browser's local
  storage, plus a per-user remote partition. A JavaScript `Set` is modelled as an
  insertion-ordered, duplicate-free `seq<int>`. The local store is a `Stored` value (missing,
  unreadable, or a parsed id array) and may refuse writes. The remote store is a
  `map<string, set<int>>` with a reachability flag.
- **Word list** (`word_data.dfy`, shapes in `types.dfy`). The three entries are
  transcribed verbatim and proved well formed.

`wrappers.dfy` holds the `Option` type, and `collections.dfy` the duplicate-free predicate shared by the found words and the ledger.

## Model

| member | source | states |
|---|---|---|
| `Text.LowerChar` | src/components/WordMine.tsx:27-28 | lower-cases exactly `A`..`Z` (by +32); every other character is unchanged; the result is never upper-case |
| `Text.Lower` | src/components/WordMine.tsx:27-28 | `toLowerCase` keeps the length and lower-cases position by position |
| `Text.LowerFixes` | src/components/WordMine.tsx:40-41 | lower-casing fixes exactly the lower-case strings and is idempotent |
| `Text.TrimStart` | src/components/WordMine.tsx:40 | the result is a suffix of the input; every dropped character is white space; the result does not start with white space |
| `Text.TrimEnd` | src/components/WordMine.tsx:40 | the result is a prefix of the input; every dropped character is white space; the result does not end with white space |
| `Text.Trim` | src/components/WordMine.tsx:40 | the result is no longer than the input, and neither starts nor ends with white space |
| `Text.TrimSlice` | src/components/WordMine.tsx:40 | `trim` drops only white space, at each end: the result is a slice `s[a..b]` of its input with `s[..a]` and `s[b..]` all white |
| `Text.TrimIdempotent` | src/components/WordMine.tsx:40 | trimming twice is trimming once |
| `Text.Normalize` | src/components/WordMine.tsx:40 | the normalised guess is no longer than the input and has no white space at either end |
| `Text.NormalizeShape` | src/components/WordMine.tsx:40 | a normalised guess is lower-case and trimmed |
| `Text.NormalizeFixes` | src/components/WordMine.tsx:40 | normalisation fixes exactly the lower-case trimmed strings, and is idempotent |
| `WordMine.Occurrences` | src/components/WordMine.tsx:30-34 | counting a character position by position gives its multiplicity in the string |
| `WordMine.FormableByCounts` | src/components/WordMine.tsx:26-36 | formability is equivalent to: no character occurs in the lower-cased target more often than in the lower-cased source (both directions) |
| `WordMine.FormableIgnoresCase` | src/components/WordMine.tsx:27-28 | lower-casing either argument does not change formability |
| `WordMine.FormableShorter` | src/components/WordMine.tsx:26-36 | a formable target is no longer than its source |
| `WordMine.IndexOf` | src/components/WordMine.tsx:31 | `indexOf` returns -1 exactly when the character is absent; otherwise the first position holding it |
| `WordMine.StrikeLetters` | src/components/WordMine.tsx:30-35 | the find-and-splice loop succeeds exactly when the target's letter multiset is included in the source's |
| `WordMine.CheckLetters` | src/components/WordMine.tsx:26-36 | `checkLetters` returns true exactly when the target is formable from the source, ignoring case |
| `WordMine.Validate` | src/components/WordMine.tsx:43-64 | the guess is ignored exactly when it is empty; a guess sent to the dictionary is new and at least 3 characters long; every rejection is of a non-empty guess |
| `WordMine.ValidateCharacterized` | src/components/WordMine.tsx:40-64 | each outcome of the ordered chain, for exactly which normalised guesses: empty is ignored; found before is a duplicate; otherwise shorter than 3 is too short; otherwise unformable is rejected; the dictionary is consulted exactly for acceptable new guesses |
| `WordMine.LookupKeepsInvariant` | src/components/WordMine.tsx:45-67 | a guess that passes every rule may enter a lookup without breaking the session invariant |
| `WordMine.AcceptableBounds` | src/components/WordMine.tsx:52-64 | an acceptable found word is normalised and its length lies between 3 and the length of the word |
| `WordMine.DuplicateIgnoresCase` | src/components/WordMine.tsx:40-50 | two inputs that differ only in case are the same guess for duplicate detection |
| `WordMine.KittenSpellsTie` | src/components/WordMine.tsx:26-36 | "tie" can be spelled from "kitten" |
| `WordMine.KittenHasTwoTs` | src/components/WordMine.tsx:26-36 | a letter may be used as often as it occurs and no more: "tt" can be spelled from "kitten", "ttt" cannot |
| `WordMine.KittenVerdicts` | src/components/WordMine.tsx:45-64 | concrete verdicts: "it" is too short, "ttt" is rejected for its letters, "TEN" is a duplicate of "ten" |
| `WordMine.Component.constructor` | src/components/WordMine.tsx:9-14 | the initial state: no found words, empty input and message, not loading, the session invariant holds |
| `WordMine.Component.Render` | src/components/WordMine.tsx:16-23 | a different word resets the current word, found words, input, message and loading flag; the same word changes nothing |
| `WordMine.Component.Edit` | src/components/WordMine.tsx:131-133 | typing sets the input; it is only possible while no lookup is pending |
| `WordMine.Component.Reject` | src/components/WordMine.tsx:45-64 | a rejection shows exactly its message and changes nothing else |
| `WordMine.Component.StartLookup` | src/components/WordMine.tsx:66-68 | starting a lookup sets loading, the "Checking dictionary..." message and the pending guess, leaves the input and found words alone, and keeps the invariant |
| `WordMine.Component.Submit` | src/components/WordMine.tsx:38-68 | the verdict is the chain applied to the normalised input; an empty guess changes nothing; a rejection shows its message and starts no lookup; otherwise the lookup starts for the normalised guess; the invariant holds |
| `WordMine.Component.FinishLookup` | src/components/WordMine.tsx:70-86 | only an `Ok` answer appends the guess at the end of the found words, clears the input and shows the found message; `NotOk` and a network error leave the found words and input as they were and show their messages; loading is false afterwards whatever the outcome; the invariant holds |
| `WordMine.Component.HandleSubmit` | src/components/WordMine.tsx:38-87 | a whole submission: the dictionary is queried only for a guess passing the chain; the found words grow by exactly that guess, and the input is cleared, iff the dictionary confirms it, and otherwise the input is kept; an empty guess keeps the message, a rejection shows its own message, and a lookup shows the found message, "Not a valid word." or the connection-error message according to the answer |
| `WordData.WordListWellFormed` | src/data/wordData.ts:3-64 | the constant `WordList` holds three entries with ids 1, 2, 3 (pairwise distinct); each word is a non-empty string of letters; each quiz has exactly four options and its correct index among them |
| `QuizModule.OptionStyle` | src/components/QuizModule.tsx:45-53 | every option is idle before an answer; after it the correct option is correct; an option is drawn wrong only when it is the chosen one and not correct |
| `QuizModule.OptionMark` | src/components/QuizModule.tsx:63-64 | no icon before an answer; the check only on the correct option; the cross only on the chosen wrong option |
| `QuizModule.FeedbackFor` | src/components/QuizModule.tsx:70-72 | the feedback line is absent exactly while `isCorrect` is null |
| `QuizModule.StyleCharacterized` | src/components/QuizModule.tsx:45-53 | before an answer every option is idle; after it, the correct option is correct, the chosen wrong option is wrong, every other option is faded (each case an if-and-only-if) |
| `QuizModule.MarkAgreesWithStyle` | src/components/QuizModule.tsx:45-53 | the check icon appears exactly on options drawn correct, the cross exactly on options drawn wrong |
| `QuizModule.CountCorrect` | src/components/QuizModule.tsx:42-53 | after an answer exactly one option is drawn correct when the correct index is in range; before it, none |
| `QuizModule.CountWrong` | src/components/QuizModule.tsx:42-53 | exactly one option is drawn wrong when the chosen option is in range and not correct; otherwise none |
| `QuizModule.CountIdle` | src/components/QuizModule.tsx:45-46 | all options are idle before an answer and none after it |
| `QuizModule.CountPartition` | src/components/QuizModule.tsx:45-53 | every option gets exactly one of the four styles |
| `QuizModule.FeedbackAgreesWithStyle` | src/components/QuizModule.tsx:70-72 | after clicking option `i`, "Correct!" is shown iff `i` is drawn correct and "Not quite" iff it is drawn wrong |
| `QuizModule.FeedbackCharacterized` | src/components/QuizModule.tsx:70-72 | the feedback is shown iff `isCorrect` is set; "Correct!" iff it is true, "Not quite" iff it is false |
| `QuizModule.WordListAnswers` | src/components/QuizModule.tsx:42-53 | on every word-list entry, any answer leaves one option drawn correct, and a wrong answer exactly one drawn wrong |
| `QuizModule.Component.Shown` | src/components/QuizModule.tsx:70 | the feedback is hidden exactly while `isCorrect` is null |
| `QuizModule.Component.constructor` | src/components/QuizModule.tsx:10-12 | the initial state has nothing selected and remembers the entry id |
| `QuizModule.Component.Render` | src/components/QuizModule.tsx:14-19 | a new entry id clears the selection and the verdict together; the same id keeps them |
| `QuizModule.Component.HandleOptionClick` | src/components/QuizModule.tsx:21-25 | the first click sets `selected := index` and `isCorrect := (index == correctIndex)`; later clicks change nothing; the two are null together |
| `QuizModule.ClickTwice` | src/components/QuizModule.tsx:21-25 | a second click after the first does not change the feedback given for the first |
| `QuizStorage.Add` | src/utils/quizStorage.ts:43 | `set.add` adds exactly the id, keeps the existing order as a prefix and keeps the set duplicate-free |
| `QuizStorage.AddIdempotent` | src/utils/quizStorage.ts:43 | adding an id twice is adding it once |
| `QuizStorage.FromList` | src/utils/quizStorage.ts:18 | `new Set(ids)` is duplicate-free with the same elements, and is the array itself when it has no repeats |
| `QuizStorage.Load` | src/utils/quizStorage.ts:13-24 | a missing or unreadable value loads as empty; a stored array loads as its set of ids |
| `QuizStorage.Save` | src/utils/quizStorage.ts:29-35 | a successful write stores a value that loads as exactly the saved ids; a failed write leaves the stored value as it was |
| `QuizStorage.LoadAfterSave` | src/utils/quizStorage.ts:29-31 | loading what a successful save wrote gives the same ledger back |
| `QuizStorage.MarkLocal` | src/utils/quizStorage.ts:42-44 | read, add, write: a successful write stores the old ledger plus the id; a failed one leaves the stored value as it was |
| `QuizStorage.SignedIn` | src/utils/quizStorage.ts:47-47 | a user counts as signed in exactly when the id is present and not the empty string (the falsy values of `if (userId)`) |
| `QuizStorage.MarkLocalEffect` | src/utils/quizStorage.ts:42-44 | the local half of marking: the ledger becomes the old one plus the id when the write succeeds; the stored value is untouched when it fails |
| `QuizStorage.MarkTwice` | src/utils/quizStorage.ts:42-44 | marking the same id twice is marking it once |
| `QuizStorage.RemoteAdd` | src/services/firestoreService.ts:27-33 | a remote write adds the ids to the user's partition and leaves every other user's partition unchanged |
| `QuizStorage.CloudRead` | src/services/firestoreService.ts:38-52 | a remote read returns every written id except 0, which is falsy and dropped |
| `QuizStorage.RemoteAddUnion` | src/services/firestoreService.ts:57-61 | two remote writes for one user are one write of both batches |
| `QuizStorage.RemoteAddIdempotent` | src/services/firestoreService.ts:27-33 | writing the same ids twice is writing them once |
| `QuizStorage.Ledger.constructor` | src/utils/quizStorage.ts:8 | a ledger over given local and remote stores |
| `QuizStorage.Ledger.LocalCompleted` | src/utils/quizStorage.ts:13-24 | `getLocalCompletedQuizzes` is duplicate-free, empty for a missing or unreadable value, otherwise the stored ids |
| `QuizStorage.Ledger.IsQuizCompleted` | src/utils/quizStorage.ts:59-61 | exactly membership in the stored ids; reads only the local store |
| `QuizStorage.Ledger.SaveToLocalStorage` | src/utils/quizStorage.ts:29-35 | a successful save stores the ids; a failed one is swallowed and leaves the stored value unchanged |
| `QuizStorage.Ledger.SaveQuizCompletion` | src/services/firestoreService.ts:27-33 | the remote upsert succeeds exactly when the remote is reachable and then adds the id to the user's partition |
| `QuizStorage.Ledger.GetCompletedQuizzes` | src/services/firestoreService.ts:38-52 | a remote read fails exactly when the remote is unreachable, and otherwise returns the user's ids without 0 |
| `QuizStorage.Ledger.MarkQuizCompleted` | src/utils/quizStorage.ts:40-54 | the local read-modify-write happens whatever the remote does; the id is then completed locally if the local write succeeded; the remote write happens only for a signed-in user and a reachable remote, and its failure is swallowed |
| `QuizStorage.Ledger.GetAllCompletedQuizzes` | src/utils/quizStorage.ts:66-81 | always includes the local ledger; signed out or on a failed remote read it is the local ledger; otherwise the union of local and remote |
| `QuizStorage.Ledger.SyncLocalToFirestore` | src/services/firestoreService.ts:57-61 | writing each id in turn: succeeds iff the remote is reachable or there is nothing to write; the remote then holds the old partition plus all the ids |
| `QuizStorage.Ledger.SyncCompletionsToCloud` | src/utils/quizStorage.ts:86-95 | no remote write when the local ledger is empty; otherwise a reachable remote ends up containing the local ledger; the local store is never modified |
| `QuizStorage.Ledger.ClearLocalCompletedQuizzes` | src/utils/quizStorage.ts:100-102 | the key is removed and the ledger loads as empty |

## Left out

- All JSX rendering and Tailwind class strings. This includes the shake animation and its `setTimeout`. The quiz styling is modelled as the classification `Style`/`Mark`/`Feedback`, not as class strings.
- The dictionary `fetch` is an oracle parameter (`dictionary: string -> LookupResult`) of `HandleSubmit`, or the `response` argument of `FinishLookup`. HTTP, URL encoding of the guess and response bodies are not modelled.
- Text.Lower: models `toLowerCase` on ASCII only. Non-ASCII capitals (for example `É`) are unchanged here, while JavaScript lower-cases them. Dafny strings are sequences of characters, not UTF-16 code units.
- WordMine.Validate: lengths and letters are counted in characters, not UTF-16 code units. The source's `guess.length` (src/components/WordMine.tsx:52) and `split('')` (lines 27-28) count code units, so a character outside the Basic Multilingual Plane counts twice there. For example, "a😀" is too short in the model, but the source counts three units and rejects it with "Those letters aren't in the word.".
- A lookup that resolves after the word has changed is not modelled. The source has no guard against it (such as a counter checked when the answer arrives), and the model adds none. `Render` clears `isLoading`, and `FinishLookup` requires a pending lookup, so the model has no interleaving in which a stale answer arrives. In the source such an answer runs `setFoundWords(prev => [...prev, guess])` (src/components/WordMine.tsx:74) and appends the old word's guess to the new session, so there the session invariant can fail; it is proved only for the interleavings the model has.
- WordMine.Component.Submit: requires that no lookup is pending. In the source, the input field and the submit button are disabled while loading (src/components/WordMine.tsx:133, 138).
- The concurrency of `Promise.all` in `syncLocalToFirestore` is not modelled. The writes are modelled as a sequential loop. With one reachability flag they either all succeed or all fail, so partial remote failures are not modelled.
- Async interleaving of ledger calls is not modelled. Every ledger method runs to completion before the next starts; in JavaScript, the read-modify-write of `markQuizCompleted` is synchronous before its first `await`.
- `localStorage` and JSON are abstracted as the `Stored` value. Text that does not parse, and valid JSON that `new Set` refuses (a number, a boolean or an object, which throw a `TypeError` caught at src/utils/quizStorage.ts:20-22), load as empty, as `Unreadable` does; `null` also builds an empty set. Two parsed values are not modelled, because the `as number[]` cast is unchecked: a JSON string, which builds the set of its characters, and an array with non-number elements, which builds a set of those elements. Numbers are unbounded integers, so IEEE-754 doubles and non-integer ids are not modelled.
- The order of elements in the result of `getAllCompletedQuizzes` is not modelled: it returns a `set<int>`.
- `clearLocalCompletedQuizzes` is modelled as always succeeding.
- `syncCompletionsToCloud` does not check its user id. The model accepts any user id, including the empty string, which the Firestore SDK would reject.
- Server timestamps (`completedAt`) are not modelled. Only the set of word ids is.
- `WordHero.tsx` (speech synthesis), `App.tsx`, `Header.tsx`, `UserMenu.tsx` and the not-shown `utils/dateUtils` and `config/firebase` modules are not part of this model.
