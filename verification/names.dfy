/** Splitting a free-text shipping name into a first name and a last name. */
module Names {
  import opened Wrappers
  import opened Text
  import opened Records

  /** `splitName`: an absent or empty name gives two empty strings; otherwise the trimmed
      name is split on whitespace runs, the first piece is the first name and the remaining
      pieces, re-joined with single spaces, are the last name. */
  function SplitName(fullName: Option<string>): (r: (string, string))
    ensures !Truthy(fullName) ==> r == ("", "")
  {
    if !Truthy(fullName) then ("", "")
    else
      var parts := SplitOnSpaceRuns(Trim(fullName.value));
      if |parts| == 0 then ("", "")
      else if |parts| == 1 then (parts[0], "")
      else (parts[0], Join(parts[1..], " "))
  }

  /** The split agrees with the whitespace-separated words of the name: none gives
      `("", "")`, one gives `(word, "")`, and more give the first word and the others
      joined by single spaces. */
  lemma {:induction false} SplitNameIsWords(fullName: Option<string>)
    ensures var ws := Words(OrEmpty(fullName));
      && (|ws| == 0 ==> SplitName(fullName) == ("", ""))
      && (|ws| == 1 ==> SplitName(fullName) == (ws[0], ""))
      && (|ws| >= 2 ==> SplitName(fullName) == (ws[0], Join(ws[1..], " ")))
  {
    if Truthy(fullName) {
      SplitTrimmed(fullName.value);
    }
  }

  /** A name made only of whitespace (including the empty name) has neither part. */
  lemma WhitespaceNameIsEmpty(fullName: Option<string>)
    requires AllSpace(OrEmpty(fullName))
    ensures SplitName(fullName) == ("", "")
  {
    if Truthy(fullName) {
      SplitTrimmed(fullName.value);
      WordsOfTrim(fullName.value);
    }
  }

  /** A name that is a single word, possibly surrounded by whitespace, is all first name. */
  lemma SingleWordName(fullName: Option<string>, word: string)
    requires Words(OrEmpty(fullName)) == [word]
    ensures SplitName(fullName) == (word, "")
  {
    SplitNameIsWords(fullName);
  }

  /** With two or more words the first name is one whole word, and first name, a space and
      last name spell the name with its whitespace runs collapsed and its ends trimmed. */
  lemma MultiWordName(fullName: Option<string>)
    requires |Words(OrEmpty(fullName))| >= 2
    ensures var (first, last) := SplitName(fullName);
      && first != "" && NoSpace(first)
      && first + " " + last == Join(Words(OrEmpty(fullName)), " ")
  {
    SplitNameIsWords(fullName);
  }
}
