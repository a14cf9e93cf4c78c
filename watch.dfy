/**
 * The loop of `main`: each cycle reads the mail client's status, compares
 * it with the previous reading, notifies when the new or unread count
 * grew, and then always makes the current reading the new baseline.
 */
module Watch {
  import opened Wrappers
  import opened Mail
  import opened Status
  import opened Notifier

  /** Python's `max(0, x)`. */
  function Max0(x: int): (r: int)
    ensures r >= 0 && r >= x && (r == x || r == 0)
  {
    if x < 0 then 0 else x
  }

  /** `any((curr > prev)[:2])`: the new or the unread count went up. */
  function Grew(curr: MailInfo, prev: MailInfo): (g: bool)
    ensures g <==> curr.newCount > prev.newCount || curr.unreadCount > prev.unreadCount
  {
    var gt := Gt(curr, prev);
    gt.0 || gt.1
  }

  /** The result of one cycle: the notification sent, if any, and the next baseline. */
  datatype Cycle = Cycle(note: Option<Notification>, next: Option<MailInfo>)

  /**
   * One cycle of the loop body. A notification is sent exactly when both
   * readings are present and the new or unread count grew; it carries the
   * growth of each, floored at zero. The baseline becomes the current
   * reading in every case.
   */
  function Step(prev: Option<MailInfo>, curr: Option<MailInfo>): (c: Cycle)
    ensures c.next == curr
    ensures c.note.Some? <==> prev.Some? && curr.Some?
                              && (curr.value.newCount > prev.value.newCount
                                  || curr.value.unreadCount > prev.value.unreadCount)
    ensures c.note.Some? ==> c.note.value.diffNew == Max0(curr.value.newCount - prev.value.newCount)
                             && c.note.value.diffUnread == Max0(curr.value.unreadCount - prev.value.unreadCount)
    ensures c.note.Some? ==> c.note.value.diffNew >= 0 && c.note.value.diffUnread >= 0
                             && (c.note.value.diffNew > 0 || c.note.value.diffUnread > 0)
  {
    var note :=
      if prev.None? || curr.None? then None
      else if Grew(curr.value, prev.value) then
        var diff := Sub(curr.value, prev.value);
        Some(Notification(Max0(diff.newCount), Max0(diff.unreadCount)))
      else None;
    Cycle(note, curr)
  }

  /** The notifications one cycle adds. */
  function Sent(c: Cycle): seq<Notification> {
    if c.note.Some? then [c.note.value] else []
  }

  /**
   * A new message is also an unread one, and the source reports both
   * differences as they are: two new unread messages read "2 new and 2 unread".
   */
  lemma NewMailCountsAsUnreadToo()
    ensures Step(Some(MailInfo(0, 0, 0)), Some(MailInfo(2, 2, 10))).note == Some(Notification(2, 2))
    ensures Step(Some(MailInfo(1, 5, 20)), Some(MailInfo(1, 7, 20))).note == Some(Notification(0, 2))
    ensures Step(Some(MailInfo(1, 5, 20)), Some(MailInfo(1, 5, 25))).note == None
  {
    assert Max0(2) == 2 && Max0(0) == 0;
  }

  /** The reading a status stands for: "not running" and an exception stand for none. */
  function Observed(s: StatusResult): (r: Option<MailInfo>)
    ensures r.Some? <==> s.Reading?
    ensures r.Some? ==> r.value == s.info
  {
    if s.Reading? then Some(s.info) else None
  }

  /**
   * What the loop has done so far: the baseline `prev_number`, the
   * notifications sent, and the exception that ended it, if any.
   */
  datatype WatchState = WatchState(baseline: Option<MailInfo>, sent: seq<Notification>, crash: Option<ParseError>)

  /**
   * One pass of the loop, given what `get_number_mail` returned or raised.
   * An exception leaves baseline and notifications as they were; otherwise
   * the status becomes the new baseline. Either way at most one notification
   * is added after the ones already sent.
   */
  function Advance(s: WatchState, status: StatusResult): (r: WatchState)
    ensures status.Crash? ==> r.crash == Some(status.error) && r.baseline == s.baseline && r.sent == s.sent
    ensures |s.sent| <= |r.sent| <= |s.sent| + 1 && r.sent[..|s.sent|] == s.sent
  {
    if status.Crash? then s.(crash := Some(status.error))
    else
      var c := Step(s.baseline, Observed(status));
      WatchState(c.next, s.sent + Sent(c), None)
  }

  /**
   * The loop run on a finite sequence of status results, starting with no
   * baseline; an exception ends it and the remaining calls are never made.
   * After a cycle that did not fail, the baseline is that cycle's reading.
   */
  function Run(statuses: seq<StatusResult>): (r: WatchState)
    ensures r.crash.None? && |statuses| > 0 ==> r.baseline == Observed(statuses[|statuses| - 1])
    decreases |statuses|
  {
    if statuses == [] then WatchState(None, [], None)
    else
      var before := Run(statuses[..|statuses| - 1]);
      if before.crash.Some? then before else Advance(before, statuses[|statuses| - 1])
  }

  /** The result of `get_number_mail` for each captured output. */
  function Classify(outputs: seq<string>): (statuses: seq<StatusResult>)
    ensures |statuses| == |outputs|
    ensures forall k :: 0 <= k < |outputs| ==> statuses[k] == GetNumberMail(outputs[k])
  {
    seq(|outputs|, k requires 0 <= k < |outputs| => GetNumberMail(outputs[k]))
  }

  /** Once the loop has been ended by an exception, later results change nothing. */
  lemma {:induction false} CrashIsFinal(statuses: seq<StatusResult>, i: nat)
    requires i <= |statuses|
    requires Run(statuses[..i]).crash.Some?
    ensures Run(statuses) == Run(statuses[..i])
    decreases |statuses| - i
  {
    if i < |statuses| {
      var shorter := statuses[..|statuses| - 1];
      assert shorter[..i] == statuses[..i];
      CrashIsFinal(shorter, i);
    } else {
      assert statuses[..i] == statuses;
    }
  }

  /**
   * Every cycle after the first compares the current reading with the
   * reading of the cycle just before it: no cycle is skipped and no older
   * baseline is kept.
   */
  lemma ComparesConsecutiveReadings(statuses: seq<StatusResult>, i: nat)
    requires 0 < i < |statuses| && Run(statuses[..i + 1]).crash.None?
    ensures Run(statuses[..i + 1]).sent
            == Run(statuses[..i]).sent + Sent(Step(Observed(statuses[i - 1]), Observed(statuses[i])))
  {
    var prefix := statuses[..i + 1];
    assert prefix[..i] == statuses[..i];
    assert Run(statuses[..i]).crash.None?;
    assert statuses[..i][i - 1] == statuses[i - 1];
  }

  /** The first reading after "not running" never notifies. */
  lemma NoNotificationAfterRestart(statuses: seq<StatusResult>, i: nat)
    requires 0 < i < |statuses| && statuses[i - 1].NotRunning?
    ensures Run(statuses[..i + 1]).sent == Run(statuses[..i]).sent
  {
    var prefix := statuses[..i + 1];
    assert prefix[..i] == statuses[..i];
    if Run(statuses[..i + 1]).crash.None? {
      ComparesConsecutiveReadings(statuses, i);
    }
  }

  /** The loop fails exactly when one of the results it reached is an exception. */
  lemma {:induction false} CrashesIffException(statuses: seq<StatusResult>)
    ensures Run(statuses).crash.Some? <==> exists k :: 0 <= k < |statuses| && statuses[k].Crash?
    decreases |statuses|
  {
    if statuses != [] {
      var shorter := statuses[..|statuses| - 1];
      CrashesIffException(shorter);
      if exists k :: 0 <= k < |shorter| && shorter[k].Crash? {
        var k :| 0 <= k < |shorter| && shorter[k].Crash?;
        assert statuses[k] == shorter[k];
      }
      if exists k :: 0 <= k < |statuses| && statuses[k].Crash? {
        var k :| 0 <= k < |statuses| && statuses[k].Crash?;
        if k < |shorter| {
          assert shorter[k] == statuses[k];
        }
      }
    }
  }

  /** Every notification sent reports non-negative counts, at least one of them positive. */
  lemma {:induction false} SentAreGrowth(statuses: seq<StatusResult>)
    ensures forall k :: 0 <= k < |Run(statuses).sent| ==>
              Run(statuses).sent[k].diffNew >= 0 && Run(statuses).sent[k].diffUnread >= 0
              && (Run(statuses).sent[k].diffNew > 0 || Run(statuses).sent[k].diffUnread > 0)
    decreases |statuses|
  {
    if statuses != [] {
      SentAreGrowth(statuses[..|statuses| - 1]);
    }
  }

  /** The first cycle never notifies, so there are fewer notifications than cycles. */
  lemma {:induction false} FewerNotificationsThanCycles(statuses: seq<StatusResult>)
    requires |statuses| > 0
    ensures |Run(statuses).sent| < |statuses|
    decreases |statuses|
  {
    if |statuses| > 1 {
      FewerNotificationsThanCycles(statuses[..|statuses| - 1]);
    } else {
      assert statuses[..0] == [];
    }
  }

  /**
   * `main` on a finite sequence of captured status outputs: `prev_number`
   * starts as `None`, each cycle notifies on growth and then takes the
   * current reading as the baseline, and an exception from the parse ends
   * the loop.
   */
  method Watch(outputs: seq<string>) returns (sent: seq<Notification>, prev: Option<MailInfo>, crash: Option<ParseError>)
    ensures WatchState(prev, sent, crash) == Run(Classify(outputs))
    ensures crash.None? && |outputs| > 0 ==> prev == Observed(GetNumberMail(outputs[|outputs| - 1]))
  {
    ghost var statuses := Classify(outputs);
    sent, prev, crash := [], None, None;
    var i := 0;
    while i < |outputs| && crash.None?
      invariant i <= |outputs|
      invariant WatchState(prev, sent, crash) == Run(statuses[..i])
      invariant crash.None? && i > 0 ==> prev == Observed(statuses[i - 1])
    {
      var status := GetNumberMail(outputs[i]);
      if status.Crash? {
        crash := Some(status.error);
      } else {
        var curr := Observed(status);
        if !(prev.None? || curr.None?) {
          if Grew(curr.value, prev.value) {
            var diff := Sub(curr.value, prev.value);
            sent := sent + [Notification(Max0(diff.newCount), Max0(diff.unreadCount))];
          }
        }
        prev := curr;
      }
      assert statuses[..i + 1][..i] == statuses[..i];
      i := i + 1;
    }
    if i < |outputs| {
      CrashIsFinal(statuses, i);
    } else {
      assert statuses[..i] == statuses;
    }
  }
}
