/**
 * The text that `notify` shows: `'%d new and %d unread mail arrived'`.
 * Displaying it is left to the desktop notification library.
 */
module Notifier {
  import opened Wrappers
  import opened Text
  import opened Ints

  /** The counts one call of `notify` reports. */
  datatype Notification = Notification(diffNew: int, diffUnread: int)

  /** The seven words of a message, the two counts among them. */
  function MessageWordList(n: Notification): seq<string> {
    [FormatInt(n.diffNew), "new", "and", FormatInt(n.diffUnread), "unread", "mail", "arrived"]
  }

  /**
   * The message body of a notification: its seven words joined by single
   * spaces, so that splitting it gives the words, the two counts among them, back.
   */
  function Message(n: Notification): (r: string)
    ensures r == Join(MessageWordList(n))
    ensures Split(r) == MessageWordList(n)
  {
    var x, y := FormatInt(n.diffNew), FormatInt(n.diffUnread);
    MessageIsJoin(x, y);
    MessageWordsAreTokens(n);
    SplitJoin(MessageWordList(n));
    x + " new and " + y + " unread mail arrived"
  }

  /** The message text with counts `x` and `y` is its words joined by single spaces. */
  lemma MessageIsJoin(x: string, y: string)
    ensures Join([x, "new", "and", y, "unread", "mail", "arrived"])
            == x + " new and " + y + " unread mail arrived"
  {
    var tail := ["unread", "mail", "arrived"];
    JoinTail();
    JoinCons(y, tail);
    JoinCons("and", [y] + tail);
    JoinCons("new", ["and", y] + tail);
    JoinCons(x, ["new", "and", y] + tail);
    assert [x, "new", "and", y, "unread", "mail", "arrived"] == [x] + (["new"] + (["and"] + ([y] + tail)));
    MessageSpaces(x, y);
  }

  /** The fixed end of the message. */
  lemma JoinTail()
    ensures Join(["unread", "mail", "arrived"]) == "unread mail arrived"
  {
  }

  /** Regrouping the spaces of the message. */
  lemma MessageSpaces(x: string, y: string)
    ensures x + " " + ("new" + " " + ("and" + " " + (y + " " + "unread mail arrived")))
            == x + " new and " + y + " unread mail arrived"
  {
  }

  /** Every word of a message is a nonempty run of non-space characters. */
  lemma MessageWordsAreTokens(n: Notification)
    ensures forall k :: 0 <= k < |MessageWordList(n)| ==> IsToken(MessageWordList(n)[k])
  {
    var words := MessageWordList(n);
    forall k | 0 <= k < |words| ensures IsToken(words[k]) {
      if k != 0 && k != 3 {
        forall i | 0 <= i < |words[k]| ensures !IsSpace(words[k][i]) {
        }
      }
    }
  }

  /** Both counts can be read back from the message, so different notifications read differently. */
  lemma MessageInjective(a: Notification, b: Notification)
    requires Message(a) == Message(b)
    ensures a == b
  {
  }
}
