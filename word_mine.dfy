/**
 * The Word Mine mini-game: the player types words hidden in the word of the
 * day. A guess is normalised, rejected by the first failing rule of a fixed
 * chain (already found, too short, letters not in the word), and otherwise
 * looked up in an external dictionary; a confirmed guess is appended to the
 * found words. A change of the word of the day starts a fresh session.
 */
module WordMine {
  import opened Text
  import opened Wrappers
  import opened Collections

  // ---------------------------------------------------------------------------
  // Letter multisets: the specification of checkLetters
  // ---------------------------------------------------------------------------

  /** `target` can be spelled with the letters of `source`, each used at most as
      often as it occurs there, ignoring case. */
  predicate Formable(source: string, target: string) {
    multiset(Lower(target)) <= multiset(Lower(source))
  }

  /** How many times `c` occurs in `s`, counted one position at a time. */
  function Occurrences(c: char, s: string): (n: nat)
    ensures n == multiset(s)[c]
    ensures n <= |s|
  {
    if s == [] then 0
    else
      assert s == [s[0]] + s[1..];
      (if s[0] == c then 1 else 0) + Occurrences(c, s[1..])
  }

  /** Formability is per-character counting: no character occurs in the
      lower-cased target more often than in the lower-cased source. */
  lemma FormableByCounts(source: string, target: string)
    ensures Formable(source, target) <==>
            forall c :: Occurrences(c, Lower(target)) <= Occurrences(c, Lower(source))
  {
    var t, s := Lower(target), Lower(source);
    if forall c :: Occurrences(c, t) <= Occurrences(c, s) {
      forall c
        ensures multiset(t)[c] <= multiset(s)[c]
      {
        assert Occurrences(c, t) <= Occurrences(c, s);
      }
      assert multiset(t) <= multiset(s);
      assert Formable(source, target);
    } else {
      var c :| Occurrences(c, t) > Occurrences(c, s);
      assert multiset(t)[c] > multiset(s)[c];
      assert !(multiset(t) <= multiset(s));
      assert !Formable(source, target);
      assert Occurrences(c, Lower(target)) > Occurrences(c, Lower(source));
    }
  }

  /** Formability ignores case: lower-casing either argument first changes nothing. */
  lemma FormableIgnoresCase(source: string, target: string)
    ensures Formable(Lower(source), target) <==> Formable(source, target)
    ensures Formable(source, Lower(target)) <==> Formable(source, target)
  {
    LowerFixes(source);
    LowerFixes(target);
  }

  /** A formable word is no longer than its source. */
  lemma FormableShorter(source: string, target: string)
    requires Formable(source, target)
    ensures |target| <= |source|
  {
    var a, b := multiset(Lower(target)), multiset(Lower(source));
    assert b == a + (b - a);
    assert |a| == |Lower(target)|;
    assert |b| == |Lower(source)|;
  }

  /** `arr.indexOf(c)`: the first position of `c`, or -1 when it does not occur. */
  method IndexOf(arr: seq<char>, c: char) returns (index: int)
    ensures index == -1 <==> c !in arr
    ensures index != -1 ==> 0 <= index < |arr| && arr[index] == c && c !in arr[..index]
  {
    index := 0;
    while index < |arr|
      invariant 0 <= index <= |arr|
      invariant c !in arr[..index]
    {
      if arr[index] == c {
        return;
      }
      assert arr[..index + 1] == arr[..index] + [arr[index]];
      index := index + 1;
    }
    assert arr[..index] == arr;
    index := -1;
  }

  /** Striking one occurrence of `c` out of the remaining letters keeps them
      equal to the source letters minus the target letters consumed so far. */
  lemma StrikeOut(rest: seq<char>, whole: multiset<char>, used: seq<char>, index: int)
    requires multiset(used) <= whole && multiset(rest) == whole - multiset(used)
    requires 0 <= index < |rest|
    ensures multiset(used + [rest[index]]) <= whole
    ensures multiset(rest[..index] + rest[index + 1..]) == whole - multiset(used + [rest[index]])
  {
    var c := rest[index];
    var left := rest[..index] + rest[index + 1..];
    assert rest == rest[..index] + [c] + rest[index + 1..];
    assert multiset(rest) == multiset(left) + multiset{c};
    assert multiset(used + [c]) == multiset(used) + multiset{c};
    forall x
      ensures multiset(left)[x] == (whole - multiset(used + [c]))[x]
    {
      assert multiset(rest)[x] == multiset(left)[x] + (if x == c then 1 else 0);
    }
  }

  /** When a target letter is missing from the remaining letters, the whole
      target needs more of it than the source has. */
  lemma Missing(rest: seq<char>, whole: multiset<char>, used: seq<char>, c: char, more: seq<char>)
    requires multiset(rest) == whole - multiset(used)
    requires c !in rest
    ensures !(multiset(used + [c] + more) <= whole)
  {
    assert multiset(rest)[c] == 0;
    assert multiset(used + [c] + more)[c] == multiset(used)[c] + 1 + multiset(more)[c];
  }

  /** The loop of checkLetters on the lower-cased letter arrays: for each target
      letter, find one occurrence among the remaining source letters and strike
      it out (`splice`); fail as soon as a letter is not found. */
  method StrikeLetters(sourceArr: seq<char>, targetArr: seq<char>) returns (ok: bool)
    ensures ok <==> multiset(targetArr) <= multiset(sourceArr)
  {
    var rest := sourceArr;
    ghost var whole := multiset(sourceArr);
    for i := 0 to |targetArr|
      invariant multiset(targetArr[..i]) <= whole
      invariant multiset(rest) == whole - multiset(targetArr[..i])
    {
      var c := targetArr[i];
      var index := IndexOf(rest, c);
      if index == -1 {
        assert targetArr == targetArr[..i] + [c] + targetArr[i + 1..];
        Missing(rest, whole, targetArr[..i], c, targetArr[i + 1..]);
        return false;
      }
      assert targetArr[..i + 1] == targetArr[..i] + [c];
      StrikeOut(rest, whole, targetArr[..i], index);
      rest := rest[..index] + rest[index + 1..];
    }
    assert targetArr[..|targetArr|] == targetArr;
    return true;
  }

  /** `checkLetters(source, target)`: lower-case both words, then strike the
      target's letters out of the source's one at a time. */
  method CheckLetters(source: string, target: string) returns (ok: bool)
    ensures ok <==> Formable(source, target)
  {
    var sourceArr := Lower(source);
    var targetArr := Lower(target);
    ok := StrikeLetters(sourceArr, targetArr);
  }

  // ---------------------------------------------------------------------------
  // The validation chain of handleSubmit
  // ---------------------------------------------------------------------------

  /** What the synchronous part of a submission decides. */
  datatype Verdict =
    | Ignored           // the normalised guess is empty: nothing happens
    | AlreadyFound
    | TooShort
    | LettersNotInWord
    | Lookup            // every rule passed: the dictionary is consulted
  {
    predicate IsRejection() {
      AlreadyFound? || TooShort? || LettersNotInWord?
    }
  }

  /** The dictionary service's answer to one lookup. */
  datatype LookupResult = Ok | NotOk | NetworkError

  const MinLength := 3

  const MsgAlreadyFound := "You already found that one!"
  const MsgTooShort := "Too short! 3 letters minimum."
  const MsgLettersNotInWord := "Those letters aren't in the word."
  const MsgChecking := "Checking dictionary..."
  const MsgNotAWord := "Not a valid word."
  const MsgConnectionError := "Connection error. Try again."

  function FoundMessage(guess: string): string {
    "Found \"" + guess + "\"!"
  }

  /** The message shown once the dictionary has answered for `guess`. */
  function LookupMessage(response: LookupResult, guess: string): string {
    match response
    case Ok => FoundMessage(guess)
    case NotOk => MsgNotAWord
    case NetworkError => MsgConnectionError
  }

  function RejectionMessage(v: Verdict): string
    requires v.IsRejection()
  {
    match v
    case AlreadyFound => MsgAlreadyFound
    case TooShort => MsgTooShort
    case LettersNotInWord => MsgLettersNotInWord
  }

  /** The chain of checks on an already normalised guess, first failure wins. */
  function Validate(foundWords: seq<string>, word: string, guess: string): (r: Verdict)
    ensures r == Ignored <==> guess == ""
    ensures r == Lookup ==> guess !in foundWords && |guess| >= MinLength
    ensures r.IsRejection() ==> guess != ""
  {
    if guess == "" then Ignored
    else if guess in foundWords then AlreadyFound
    else if |guess| < MinLength then TooShort
    else if !Formable(word, guess) then LettersNotInWord
    else Lookup
  }

  /** A word that may sit in the found-words list of a session on `word`:
      normalised, at least three letters long and spelled from the word's letters. */
  predicate Acceptable(word: string, w: string) {
    IsLower(w) && Trimmed(w) && |w| >= MinLength && Formable(word, w)
  }

  /** Every entry of `s` is acceptable for `word`. */
  predicate AllAcceptable(word: string, s: seq<string>) {
    s == [] || (AllAcceptable(word, s[..|s| - 1]) && Acceptable(word, s[|s| - 1]))
  }

  /** The entries of a list of acceptable words are acceptable, one by one. */
  lemma {:induction false} AllAcceptableAt(word: string, s: seq<string>, i: int)
    requires AllAcceptable(word, s) && 0 <= i < |s|
    ensures Acceptable(word, s[i])
  {
    if i < |s| - 1 {
      AllAcceptableAt(word, s[..|s| - 1], i);
    }
  }

  /** Appending a new acceptable word keeps the found words distinct and acceptable. */
  lemma AppendFound(word: string, s: seq<string>, w: string)
    requires NoDuplicates(s) && AllAcceptable(word, s)
    requires Acceptable(word, w) && w !in s
    ensures NoDuplicates(s + [w]) && AllAcceptable(word, s + [w])
  {
    assert (s + [w])[..|s|] == s;
  }

  /** The session invariant over the component's values: the found words are
      distinct and each is acceptable for the current word; a lookup in flight
      is for an acceptable word not yet found. */
  predicate SessionInvariant(word: string, foundWords: seq<string>, isLoading: bool, pending: string) {
    NoDuplicates(foundWords) && AllAcceptable(word, foundWords) &&
    (isLoading ==> Acceptable(word, pending) && pending !in foundWords)
  }

  /** The dictionary is consulted exactly for the normalised inputs that are
      acceptable and new; each of the three rejections is reported for exactly
      the guesses that pass the rules before it and fail it. */
  lemma ValidateCharacterized(foundWords: seq<string>, word: string, input: string)
    ensures var g := Normalize(input);
            Validate(foundWords, word, g) == Lookup <==> Acceptable(word, g) && g !in foundWords
    ensures var g := Normalize(input);
            Validate(foundWords, word, g) == Ignored <==> g == ""
    ensures var g := Normalize(input);
            Validate(foundWords, word, g) == AlreadyFound <==> g != "" && g in foundWords
    ensures var g := Normalize(input);
            Validate(foundWords, word, g) == TooShort <==> g != "" && g !in foundWords && |g| < MinLength
    ensures var g := Normalize(input);
            Validate(foundWords, word, g) == LettersNotInWord <==>
              g !in foundWords && |g| >= MinLength && !Formable(word, g)
  {
    NormalizeShape(input);
  }

  /** Starting a lookup for a guess that passed every rule keeps the session invariant. */
  lemma LookupKeepsInvariant(word: string, foundWords: seq<string>, input: string)
    requires SessionInvariant(word, foundWords, false, "")
    requires Validate(foundWords, word, Normalize(input)) == Lookup
    ensures SessionInvariant(word, foundWords, true, Normalize(input))
  {
    NormalizeShape(input);
  }

  /** An acceptable word is lower-case, trimmed, and between three letters and
      the length of the word of the day. */
  lemma AcceptableBounds(word: string, w: string)
    requires Acceptable(word, w)
    ensures Normalize(w) == w
    ensures MinLength <= |w| <= |word|
  {
    NormalizeFixes(w);
    FormableShorter(word, w);
  }

  /** Case makes no difference to duplicate detection: two inputs that differ
      only in case normalise to the same guess. */
  lemma DuplicateIgnoresCase(foundWords: seq<string>, word: string, a: string, b: string)
    requires Lower(a) == Lower(b)
    requires Normalize(a) in foundWords
    ensures Normalize(b) != "" ==> Validate(foundWords, word, Normalize(b)) == AlreadyFound
  {
  }

  /** The letters of "kitten", which is already lower-case. */
  lemma KittenLetters()
    ensures multiset(Lower("kitten")) == multiset{'k', 'i', 't', 't', 'e', 'n'}
  {
    assert Lower("kitten") == "kitten";
  }

  /** On the source "kitten", "tie" can be spelled. */
  lemma KittenSpellsTie()
    ensures Formable("kitten", "tie")
  {
    KittenLetters();
    assert Lower("tie") == "tie";
  }

  /** "kitten" has exactly two t's: "tt" can be spelled from it, "ttt" cannot. */
  lemma KittenHasTwoTs()
    ensures Formable("kitten", "tt")
    ensures !Formable("kitten", "ttt")
  {
    KittenLetters();
    assert Lower("tt") == "tt";
    assert Lower("ttt") == "ttt";
    assert multiset("ttt")['t'] == 3;
  }

  /** Examples of the rejection chain on the source "kitten"; "TEN" is a
      duplicate of "ten" whatever its case. */
  lemma KittenVerdicts()
    ensures Validate([], "kitten", "it") == TooShort
    ensures Validate([], "kitten", "ttt") == LettersNotInWord
    ensures Validate(["ten"], "kitten", Normalize("TEN")) == AlreadyFound
  {
    KittenHasTwoTs();
    assert Lower("TEN") == "ten";
    TrimmedFixed("ten");
  }

  // ---------------------------------------------------------------------------
  // The component state
  // ---------------------------------------------------------------------------

  /** The state of one Word Mine component. `pendingGuess` is the guess the
      lookup in flight was issued for (the value its callback captured). */
  class Component {
    var foundWords: seq<string>
    var input: string
    var message: string
    var isLoading: bool
    var currentWord: string
    var pendingGuess: string

    /** The session invariant on the current state. */
    ghost predicate Valid()
      reads this`currentWord, this`foundWords, this`isLoading, this`pendingGuess
    {
      SessionInvariant(currentWord, foundWords, isLoading, pendingGuess)
    }

    /** The initial state of the component for `word`. */
    constructor (word: string)
      ensures Valid()
      ensures currentWord == word && foundWords == [] && input == "" && message == ""
      ensures !isLoading
    {
      foundWords := [];
      input := "";
      message := "";
      isLoading := false;
      currentWord := word;
      pendingGuess := "";
    }

    /** A render with the prop `word`: a different word resets the session. */
    method Render(word: string)
      requires Valid()
      modifies this
      ensures Valid()
      ensures word != old(currentWord) ==>
                currentWord == word && foundWords == [] && input == "" && message == "" && !isLoading
      ensures word == old(currentWord) ==>
                currentWord == old(currentWord) && foundWords == old(foundWords) && input == old(input) &&
                message == old(message) && isLoading == old(isLoading) && pendingGuess == old(pendingGuess)
    {
      if word != currentWord {
        currentWord := word;
        foundWords := [];
        input := "";
        message := "";
        isLoading := false;
      }
    }

    /** The text field's change handler; the field is disabled while a lookup is pending. */
    method Edit(text: string)
      requires Valid() && !isLoading
      modifies this`input
      ensures Valid() && input == text
    {
      input := text;
    }

    /** A rejection: show its message (the shake animation is not modelled). */
    method Reject(verdict: Verdict)
      requires verdict.IsRejection()
      modifies this`message
      ensures message == RejectionMessage(verdict)
      ensures input == old(input) && foundWords == old(foundWords) && currentWord == old(currentWord)
      ensures isLoading == old(isLoading) && pendingGuess == old(pendingGuess)
    {
      message := RejectionMessage(verdict);
    }

    /** Every rule passed: show that the dictionary is being consulted and
        remember the guess the lookup is for. */
    method StartLookup(guess: string)
      requires SessionInvariant(currentWord, foundWords, true, guess)
      modifies this`message, this`isLoading, this`pendingGuess
      ensures Valid() && isLoading && message == MsgChecking && pendingGuess == guess
      ensures input == old(input) && foundWords == old(foundWords) && currentWord == old(currentWord)
    {
      isLoading := true;
      message := MsgChecking;
      pendingGuess := guess;
    }

    /** The part of handleSubmit before the dictionary request: normalise the
        input and run the rejection chain, or start a lookup. Submission is
        disabled while a lookup is pending. */
    method Submit() returns (verdict: Verdict)
      requires Valid() && !isLoading
      modifies this`message, this`isLoading, this`pendingGuess
      ensures Valid()
      ensures input == old(input) && foundWords == old(foundWords) && currentWord == old(currentWord)
      ensures verdict == Validate(old(foundWords), old(currentWord), Normalize(old(input)))
      ensures verdict == Ignored ==>
                message == old(message) && !isLoading && pendingGuess == old(pendingGuess)
      ensures verdict.IsRejection() ==> message == RejectionMessage(verdict) && !isLoading
      ensures verdict == Lookup ==>
                isLoading && message == MsgChecking && pendingGuess == Normalize(old(input))
    {
      var guess := Normalize(input);
      var mainWord := Lower(currentWord);
      if guess == "" {
        return Ignored;
      }
      if guess in foundWords {
        Reject(AlreadyFound);
        return AlreadyFound;
      }
      if |guess| < MinLength {
        Reject(TooShort);
        return TooShort;
      }
      var ok := CheckLetters(mainWord, guess);
      FormableIgnoresCase(currentWord, guess);
      if !ok {
        Reject(LettersNotInWord);
        return LettersNotInWord;
      }
      LookupKeepsInvariant(currentWord, foundWords, input);
      StartLookup(guess);
      verdict := Lookup;
    }

    /** The part of handleSubmit after the dictionary request settles. */
    method FinishLookup(response: LookupResult)
      requires Valid() && isLoading
      modifies this`foundWords, this`input, this`message, this`isLoading
      ensures Valid() && !isLoading && currentWord == old(currentWord)
      ensures response == Ok ==>
                foundWords == old(foundWords) + [old(pendingGuess)] && input == "" &&
                message == FoundMessage(old(pendingGuess))
      ensures response != Ok ==> foundWords == old(foundWords) && input == old(input)
      ensures response == NotOk ==> message == MsgNotAWord
      ensures response == NetworkError ==> message == MsgConnectionError
      ensures message == LookupMessage(response, old(pendingGuess))
    {
      match response {
        case Ok =>
          AppendFound(currentWord, foundWords, pendingGuess);
          foundWords := foundWords + [pendingGuess];
          message := FoundMessage(pendingGuess);
          input := "";
        case NotOk =>
          message := MsgNotAWord;
        case NetworkError =>
          message := MsgConnectionError;
      }
      isLoading := false;
    }

    /** A whole submission, with the dictionary as an oracle: `queried` is the
        term looked up, if any. Only a confirmed lookup changes the found words. */
    method HandleSubmit(dictionary: string -> LookupResult) returns (verdict: Verdict, queried: Option<string>)
      requires Valid() && !isLoading
      modifies this`foundWords, this`input, this`message, this`isLoading, this`pendingGuess
      ensures Valid() && !isLoading && currentWord == old(currentWord)
      ensures verdict == Validate(old(foundWords), old(currentWord), Normalize(old(input)))
      ensures queried == (if verdict == Lookup then Some(Normalize(old(input))) else None)
      ensures foundWords ==
                if verdict == Lookup && dictionary(Normalize(old(input))) == Ok
                then old(foundWords) + [Normalize(old(input))]
                else old(foundWords)
      ensures input ==
                if verdict == Lookup && dictionary(Normalize(old(input))) == Ok then "" else old(input)
      ensures verdict == Ignored ==> message == old(message)
      ensures verdict.IsRejection() ==> message == RejectionMessage(verdict)
      ensures verdict == Lookup ==>
                message == LookupMessage(dictionary(Normalize(old(input))), Normalize(old(input)))
    {
      verdict := Submit();
      queried := None;
      if verdict == Lookup {
        var guess := pendingGuess;
        queried := Some(guess);
        FinishLookup(dictionary(guess));
      }
    }
  }
}
