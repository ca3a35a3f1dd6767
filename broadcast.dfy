/** `bcast`: send the replied-to message to every registered chat, one at
    a time, counting deliveries and failures; a failure for one chat does
    not stop the others. */
module Broadcast {
  import opened Strings
  import opened Chat

  const UsageText := "Please use `/bcast` as reply to the message you want to broadcast."
  const InProgressText := "In progress..."

  const ReportHead := "Broadcast completed.\nSuccess: "
  const FailedLabel := "\nFailed: "

  /** The final edit of the progress message. */
  function ReportText(done: nat, failed: nat): (r: string)
    ensures StartsWith(r, ReportHead)
    ensures |r| >= |ReportHead| + |FailedLabel| + 2
  {
    var r := ReportHead + DecimalString(done) + FailedLabel + DecimalString(failed);
    assert r[..|ReportHead|] == ReportHead;
    r
  }

  /** Two digit strings that are both followed by a line break at the same
      place in one text have the same length. */
  lemma LabelAfterDigits(r: string, h: nat, a: string, c: string)
    requires forall k :: 0 <= k < |a| ==> IsDigit(a[k])
    requires forall k :: 0 <= k < |c| ==> IsDigit(c[k])
    requires h + |a| < |r| && h + |c| < |r|
    requires r[h..h + |a|] == a && r[h + |a|] == '\n'
    requires r[h..h + |c|] == c && r[h + |c|] == '\n'
    ensures |a| == |c|
  {
    forall k | 0 <= k < |a| ensures a[k] == r[h + k] && a[k] != '\n' {
      assert IsDigit(a[k]);
    }
    forall k | 0 <= k < |c| ensures c[k] == r[h + k] && c[k] != '\n' {
      assert IsDigit(c[k]);
    }
  }

  /** The report can be read back: different counters never give the same text. */
  lemma ReportTextInjective(done1: nat, failed1: nat, done2: nat, failed2: nat)
    requires ReportText(done1, failed1) == ReportText(done2, failed2)
    ensures done1 == done2 && failed1 == failed2
  {
    var a, b := DecimalString(done1), DecimalString(failed1);
    var c, d := DecimalString(done2), DecimalString(failed2);
    var h := |ReportHead|;
    var r := ReportText(done1, failed1);
    assert r == ReportHead + a + FailedLabel + b;
    assert r == ReportHead + c + FailedLabel + d;
    assert |a| == |c| by {
      LabelAfterDigits(r, h, a, c);
    }
    assert a == r[h..h + |a|] == c;
    assert b == r[h + |a| + |FailedLabel|..] == d;
    DecimalRoundTrip(done1);
    DecimalRoundTrip(done2);
    DecimalRoundTrip(failed1);
    DecimalRoundTrip(failed2);
  }

  /** Looking up the chat's name and sending to it either both succeed or
      one of them raises. */
  datatype Delivery = Delivered | Failed(reason: string)

  /** The transport's answer for each chat. */
  type Deliver = int -> Delivery

  /** Chats among `users` that were delivered to. */
  function DeliveredCount(users: seq<int>, deliver: Deliver): (r: nat)
    ensures r <= |users|
    ensures r == 0 <== forall k :: 0 <= k < |users| ==> deliver(users[k]).Failed?
  {
    if |users| == 0 then 0
    else DeliveredCount(users[..|users| - 1], deliver) + (if deliver(users[|users| - 1]).Delivered? then 1 else 0)
  }

  /** Chats among `users` whose delivery raised. */
  function FailedCount(users: seq<int>, deliver: Deliver): (r: nat)
    ensures r <= |users|
    ensures r == 0 <== forall k :: 0 <= k < |users| ==> deliver(users[k]).Delivered?
  {
    if |users| == 0 then 0
    else FailedCount(users[..|users| - 1], deliver) + (if deliver(users[|users| - 1]).Failed? then 1 else 0)
  }

  /** The messages that went out, in the order of `users`. */
  function Deliveries(users: seq<int>, deliver: Deliver): (r: seq<Post>)
    ensures |r| <= |users|
    ensures forall k :: 0 <= k < |r| ==> r[k].Send? && r[k].chat in users && deliver(r[k].chat).Delivered?
  {
    if |users| == 0 then []
    else
      var last := users[|users| - 1];
      Deliveries(users[..|users| - 1], deliver) + (if deliver(last).Delivered? then [Send(last)] else [])
  }

  /** Every chat is counted once, as delivered or as failed. */
  lemma {:induction false} CountsAddUp(users: seq<int>, deliver: Deliver)
    ensures DeliveredCount(users, deliver) + FailedCount(users, deliver) == |users|
  {
    if |users| > 0 {
      CountsAddUp(users[..|users| - 1], deliver);
    }
  }

  /** The success counter is the number of messages that went out. */
  lemma {:induction false} DeliveriesCounted(users: seq<int>, deliver: Deliver)
    ensures |Deliveries(users, deliver)| == DeliveredCount(users, deliver)
    ensures forall k :: 0 <= k < |Deliveries(users, deliver)| ==> Deliveries(users, deliver)[k].Send?
  {
    if |users| > 0 {
      DeliveriesCounted(users[..|users| - 1], deliver);
    }
  }

  /** Failure isolation: a chat receives the message exactly when it is
      registered and its own delivery succeeds, whatever happens to the
      other chats. */
  lemma {:induction false} FailureIsolation(users: seq<int>, deliver: Deliver, chat: int)
    ensures Send(chat) in Deliveries(users, deliver) <==> chat in users && deliver(chat).Delivered?
  {
    if |users| > 0 {
      var init, last := users[..|users| - 1], users[|users| - 1];
      FailureIsolation(init, deliver, chat);
      assert users == init + [last];
      assert chat in users <==> chat in init || chat == last;
    }
  }

  /** With `k` failing chats out of `n`, the report says `n - k` delivered. */
  lemma FailuresCounted(users: seq<int>, deliver: Deliver, k: nat)
    requires FailedCount(users, deliver) == k
    ensures k <= |users| && DeliveredCount(users, deliver) == |users| - k
  {
    CountsAddUp(users, deliver);
  }
}
