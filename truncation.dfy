/** The input-length policy of the summariser call: the article text is cut
    to its first 1024 characters (a Python slice counts characters, not
    model tokens). */
module Truncation {
  import opened Words

  /** The bound applied to the text handed to the summariser. */
  const MaxInputChars: nat := 1024

  /** `text[:1024]`. */
  function Truncate(text: string): (r: string)
    ensures |r| <= MaxInputChars
    ensures r <= text
    ensures |text| <= MaxInputChars ==> r == text
    ensures |text| > MaxInputChars ==> |r| == MaxInputChars
  {
    if |text| <= MaxInputChars then text else text[..MaxInputChars]
  }

  /** Cutting the text never adds words: the summariser sees at most the
      words the full text has. */
  lemma TruncatedWordsAtMost(text: string)
    ensures WordCount(Truncate(text)) <= WordCount(text)
  {
    WordCountPrefix(text, |Truncate(text)|);
  }

  lemma ExceedsWhenWordFollows(head: string)
    requires |head| == MaxInputChars && NoSpace(head)
    ensures WordCount(Truncate(head + " b")) < WordCount(head + " b")
  {
    assert Truncate(head + " b") == head;
    WordCountOfWord(head);
    WordCountOfWord("b");
    assert head + " b" == head + " " + "b";
    WordCountJoin(head, " ", "b");
  }

  /** Counting on the full text can report more words than the summariser
      was given: a 1024-character word followed by a second word. */
  lemma OriginalCountCanExceedInput()
    ensures exists text :: WordCount(Truncate(text)) < WordCount(text)
  {
    var head := seq(MaxInputChars, _ => 'a');
    ExceedsWhenWordFollows(head);
  }

  /** Truncation keeps a non-empty text non-empty and whitespace-only text
      whitespace-only, so the summariser is always given something. */
  lemma TruncatePreservesEmptiness(text: string)
    ensures Truncate(text) == [] <==> text == []
    ensures AllSpace(text) ==> AllSpace(Truncate(text))
  {
  }
}
