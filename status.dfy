/**
 * The parsing half of `get_number_mail`: the text printed by
 * `claws-mail --status` is classified as "client not running", a reading
 * of the three counters, or the exception the parse raises.
 */
module Status {
  import opened Wrappers
  import opened Text
  import opened Ints
  import opened Mail

  /** What Claws Mail prints when it is not running (`CLAWS_MAIL_NOT_RUNNING`). */
  const NotRunningText: string := "0 Claws Mail not running."

  /** The exception that escapes `get_number_mail` on unexpected output. */
  datatype ParseError =
    | ValueError(token: string)  // `int` refused a word
    | IndexError(count: nat)     // fewer than three numbers to index

  /** The outcome of `get_number_mail`: `None`, a `mail_info`, or a raised exception. */
  datatype StatusResult = NotRunning | Reading(info: MailInfo) | Crash(error: ParseError)

  /** `tuple(map(int, words))`: all the numbers, or the position of the first refused word. */
  datatype Numbers = Numbers(values: seq<int>) | BadWord(index: nat)

  predicate AllNumbers(words: seq<string>) {
    forall k :: 0 <= k < |words| ==> ParseInt(words[k]).Some?
  }

  /** Converts every word in order and stops at the first one `int` refuses. */
  function ParseAll(words: seq<string>): (r: Numbers)
    ensures r.Numbers? <==> AllNumbers(words)
    ensures r.Numbers? ==> |r.values| == |words|
                           && forall k :: 0 <= k < |words| ==> ParseInt(words[k]) == Some(r.values[k])
    ensures r.BadWord? ==> r.index < |words| && ParseInt(words[r.index]).None?
                           && forall k :: 0 <= k < r.index ==> ParseInt(words[k]).Some?
    decreases |words|
  {
    if words == [] then Numbers([])
    else match ParseInt(words[0])
      case None => BadWord(0)
      case Some(v) =>
        match ParseAll(words[1..])
        case Numbers(vs) => Numbers([v] + vs)
        case BadWord(i) => BadWord(i + 1)
  }

  /**
   * `get_number_mail` on the captured output: the sentinel (after strip)
   * means not running; otherwise the first three numbers form a reading,
   * with every word converted first, so a bad word anywhere fails and
   * fewer than three numbers fail at the indexing.
   */
  function GetNumberMail(output: string): (r: StatusResult)
    ensures r.NotRunning? <==> Strip(output) == NotRunningText
    ensures r.Reading? <==> Strip(output) != NotRunningText
                            && AllNumbers(Split(output)) && |Split(output)| >= 3
    ensures r.Reading? ==> Some(r.info.newCount) == ParseInt(Split(output)[0])
                           && Some(r.info.unreadCount) == ParseInt(Split(output)[1])
                           && Some(r.info.totalCount) == ParseInt(Split(output)[2])
    ensures r.Crash? && r.error.ValueError? <==> Strip(output) != NotRunningText
                                                 && !AllNumbers(Split(output))
    ensures r.Crash? && r.error.IndexError? <==> Strip(output) != NotRunningText
                                                 && AllNumbers(Split(output)) && |Split(output)| < 3
    ensures r.Crash? && r.error.IndexError? ==> r.error.count == |Split(output)|
    ensures r.Crash? && r.error.ValueError? ==> ParseAll(Split(output)).BadWord?
                                                && r.error.token == Split(output)[ParseAll(Split(output)).index]
  {
    if Strip(output) == NotRunningText then NotRunning
    else
      var words := Split(output);
      match ParseAll(words)
      case BadWord(i) => Crash(ValueError(words[i]))
      case Numbers(vs) =>
        if |vs| < 3 then Crash(IndexError(|vs|))
        else Reading(MailInfo(vs[0], vs[1], vs[2]))
  }

  /** Whitespace around the output never changes the outcome. */
  lemma GetNumberMailPadded(w1: string, output: string, w2: string)
    requires AllSpace(w1) && AllSpace(w2)
    ensures GetNumberMail(w1 + output + w2) == GetNumberMail(output)
  {
    StripPadded(w1, output, w2);
    SplitPadded(w1, output, w2);
  }

  /** Empty or all-whitespace output is an `IndexError` on the first index, not a skip. */
  lemma BlankOutputFails(output: string)
    requires AllSpace(output)
    ensures GetNumberMail(output) == Crash(IndexError(0))
  {
    SplitAllSpace(output);
    StripEmptyIffAllSpace(output);
  }

  /** The words of the sentinel. */
  lemma NotRunningWords()
    ensures Split(NotRunningText) == ["0", "Claws", "Mail", "not", "running."]
  {
    var words := ["0", "Claws", "Mail", "not", "running."];
    NotRunningIsJoin();
    NotRunningWordsAreTokens();
    SplitJoin(words);
  }

  /** The sentinel is its five words joined by single spaces. */
  lemma NotRunningIsJoin()
    ensures Join(["0", "Claws", "Mail", "not", "running."]) == NotRunningText
  {
    JoinCons("not", ["running."]);
    JoinCons("Mail", ["not", "running."]);
    JoinCons("Claws", ["Mail", "not", "running."]);
    JoinCons("0", ["Claws", "Mail", "not", "running."]);
    assert ["0"] + ["Claws", "Mail", "not", "running."] == ["0", "Claws", "Mail", "not", "running."];
  }

  /** None of the sentinel's words contains whitespace. */
  lemma NotRunningWordsAreTokens()
    ensures forall k :: 0 <= k < 5 ==> IsToken(["0", "Claws", "Mail", "not", "running."][k])
  {
    var words := ["0", "Claws", "Mail", "not", "running."];
    forall k | 0 <= k < |words| ensures IsToken(words[k]) {
      forall i | 0 <= i < |words[k]| ensures !IsSpace(words[k][i]) {
      }
    }
  }

  /** The first word of the sentinel is a number, the second is not. */
  lemma NotRunningNumbers()
    ensures ParseAll(["0", "Claws", "Mail", "not", "running."]) == BadWord(1)
  {
  }

  /** The sentinel is not numeric: without the check it would be a `ValueError` at "Claws". */
  lemma NotRunningTextIsNotNumeric(output: string)
    requires Strip(output) == NotRunningText
    ensures ParseAll(Split(output)) == BadWord(1)
  {
    var pre, post := StripSplits(output);
    SplitPadded(pre, NotRunningText, post);
    NotRunningWords();
    NotRunningNumbers();
  }

  /** The words `'%d'` gives for each number. */
  function FormatAll(values: seq<int>): (words: seq<string>)
    ensures |words| == |values|
    ensures forall k :: 0 <= k < |values| ==> words[k] == FormatInt(values[k])
  {
    seq(|values|, k requires 0 <= k < |values| => FormatInt(values[k]))
  }

  /**
   * Output made of the three counters followed by any further numbers,
   * separated by single spaces, is read back as exactly those counters.
   */
  lemma StatusRoundTrip(m: MailInfo, extra: seq<int>)
    ensures GetNumberMail(Join(FormatAll([m.newCount, m.unreadCount, m.totalCount] + extra))) == Reading(m)
  {
    var values := [m.newCount, m.unreadCount, m.totalCount] + extra;
    var words := FormatAll(values);
    var output := Join(words);
    SplitJoin(words);
    assert AllNumbers(words);
    if Strip(output) == NotRunningText {
      NotRunningTextIsNotNumeric(output);
      assert false;
    }
  }
}
