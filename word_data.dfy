/** The fixed, ordered word list the widget shows: three entries, never changed at run time. */
module WordData {
  import opened Types

  const WordList: seq<WordData> := [
    WordData(
      1,
      "Petrichor",
      "/ˈpe.trɪ.kɔːr/",
      "noun",
      "A pleasant smell that frequently accompanies the first rain after a long period of warm, dry weather.",
      "After the storm passed, the air was thick with the scent of petrichor.",
      "From Greek 'petra' (stone) and 'ichor' (the fluid that flows in the veins of the gods).",
      QuizData(
        "Meteorology & Chemistry",
        "What chemical compound, produced by soil bacteria, is primarily responsible for the smell of petrichor?",
        ["Ozone", "Geosmin", "Petroleum", "Chlorine"],
        1)),
    WordData(
      2,
      "Sonder",
      "/ˈsɒn.dər/",
      "noun",
      "The realization that each random passerby is living a life as vivid and complex as your own.",
      "Sitting on the train, she was suddenly struck by sonder as she looked at the tired commuters.",
      "Coined by John Koenig for The Dictionary of Obscure Sorrows.",
      QuizData(
        "Psychology",
        "Which cognitive concept is most closely related to the *opposite* of sonder (thinking you are the main character)?",
        ["Imposter Syndrome", "Main Character Syndrome", "Solipsism", "Deja Vu"],
        2)),
    WordData(
      3,
      "Apricity",
      "/əˈprɪ.sɪ.ti/",
      "noun",
      "The warmth of the sun in winter.",
      "The cat slept on the windowsill, soaking up the apricity on the cold January afternoon.",
      "From Latin 'apricitas' (sunniness).",
      QuizData(
        "Astronomy",
        "Why does the winter sun feel weaker than the summer sun in the Northern Hemisphere?",
        ["The sun actually shrinks in winter", "The Earth is farther away from the sun",
         "Sunlight hits the Earth at a shallower angle", "There are more clouds in winter"],
        2))
  ]

  /** An ASCII letter. */
  predicate IsLetter(c: char) {
    'a' <= c <= 'z' || 'A' <= c <= 'Z'
  }

  /** A word the Word Mine can use as its source: non-empty and made only of letters. */
  predicate IsLetterWord(s: string) {
    s != [] && forall i :: 0 <= i < |s| ==> IsLetter(s[i])
  }

  /** A well-formed entry: a letter word and a quiz of four options with the answer among them. */
  predicate ValidEntry(e: WordData) {
    IsLetterWord(e.word) && |e.quiz.options| == 4 && ValidQuiz(e.quiz)
  }

  /** Every entry of the list is well formed, and the ids are 1, 2, 3 in order, hence distinct. */
  lemma WordListWellFormed()
    ensures |WordList| == 3
    ensures forall k :: 0 <= k < |WordList| ==> WordList[k].id == k + 1
    ensures forall j, k :: 0 <= j < k < |WordList| ==> WordList[j].id != WordList[k].id
    ensures forall k :: 0 <= k < |WordList| ==> ValidEntry(WordList[k])
  {
  }
}
