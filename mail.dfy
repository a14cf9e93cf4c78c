/**
 * The `mail_info` value of mail_notifier.py: three mail counters reported by
 * the mail client, with the field-wise comparison and subtraction that the
 * source writes as the `>` and `-` operators.
 */
module Mail {

  /** One observation of the mail client: new, unread and total message counts. */
  datatype MailInfo = MailInfo(newCount: int, unreadCount: int, totalCount: int)

  /** The three counters as a tuple, in the order new, unread, total (`as_tuple`). */
  function AsTuple(m: MailInfo): (t: (int, int, int))
    ensures MailInfo(t.0, t.1, t.2) == m
  {
    (m.newCount, m.unreadCount, m.totalCount)
  }

  /**
   * Field-wise difference `a - b` (`__sub__`): adding `b` back gives `a`
   * in every field, and a reading minus itself is all zeros.
   */
  function Sub(a: MailInfo, b: MailInfo): (r: MailInfo)
    ensures r.newCount + b.newCount == a.newCount
    ensures r.unreadCount + b.unreadCount == a.unreadCount
    ensures r.totalCount + b.totalCount == a.totalCount
    ensures a == b ==> r == MailInfo(0, 0, 0)
  {
    MailInfo(a.newCount - b.newCount, a.unreadCount - b.unreadCount, a.totalCount - b.totalCount)
  }

  /**
   * Field-wise strict comparison `a > b` (`__gt__`): a component is true
   * exactly when the corresponding component of `a - b` is positive, and
   * a reading compared with itself gives three false values.
   */
  function Gt(a: MailInfo, b: MailInfo): (r: (bool, bool, bool))
    ensures r.0 <==> Sub(a, b).newCount > 0
    ensures r.1 <==> Sub(a, b).unreadCount > 0
    ensures r.2 <==> Sub(a, b).totalCount > 0
    ensures a == b ==> r == (false, false, false)
  {
    (a.newCount > b.newCount, a.unreadCount > b.unreadCount, a.totalCount > b.totalCount)
  }
}
