/** The bounded message log of WarehouseRoguelike (add_message). */
module MessageLog {
  import opened Common

  const Capacity := 5

  /** The newest Capacity entries of s, in order. */
  function Newest(s: seq<Event>): (r: seq<Event>)
    ensures |r| <= Capacity
    ensures |s| <= Capacity ==> r == s
  {
    if |s| <= Capacity then s else s[|s| - Capacity..]
  }

  /** What is kept is a suffix: all of s while it fits, otherwise exactly
      its last Capacity entries. */
  lemma NewestSuffix(s: seq<Event>)
    ensures var r := Newest(s);
      && |r| == (if |s| <= Capacity then |s| else Capacity)
      && forall k :: 0 <= k < |r| ==> r[k] == s[|s| - |r| + k]
  {
  }

  /** add_message: append, then drop the oldest entry once there are more
      than Capacity. */
  function Log(messages: seq<Event>, e: Event): (r: seq<Event>)
    // a log that respected the bound keeps the newest entries, newest last
    ensures |messages| <= Capacity ==> r == Newest(messages + [e])
    ensures |r| > 0 && r[|r| - 1] == e
  {
    var appended := messages + [e];
    if |appended| > Capacity then appended[1..] else appended
  }

  /** Several add_message calls in a row. */
  function LogAll(messages: seq<Event>, es: seq<Event>): seq<Event>
    decreases |es|
  {
    if es == [] then messages else LogAll(Log(messages, es[0]), es[1..])
  }

  lemma NewestOfNewest(s: seq<Event>, t: seq<Event>)
    ensures Newest(Newest(s) + t) == Newest(s + t)
  {
    var n := Newest(s);
    if |s| > Capacity {
      assert n + t == (s + t)[|s| - Capacity..];
    }
  }

  /** However many messages are added, the log holds the newest Capacity
      of everything ever added, in order. */
  lemma {:induction false} LogAllKeepsNewest(messages: seq<Event>, es: seq<Event>)
    requires |messages| <= Capacity
    ensures LogAll(messages, es) == Newest(messages + es)
    decreases |es|
  {
    if es == [] {
      assert messages + es == messages;
    } else {
      var added := messages + [es[0]];
      assert Log(messages, es[0]) == Newest(added);
      LogAllKeepsNewest(Newest(added), es[1..]);
      NewestOfNewest(added, es[1..]);
      assert added + es[1..] == messages + es;
    }
  }

  /** Logging one more message after a batch is logging the longer batch. */
  lemma {:induction false} LogAllSnoc(messages: seq<Event>, es: seq<Event>, e: Event)
    ensures LogAll(messages, es + [e]) == Log(LogAll(messages, es), e)
    decreases |es|
  {
    if es == [] {
      assert es + [e] == [e];
    } else {
      assert (es + [e])[1..] == es[1..] + [e];
      LogAllSnoc(Log(messages, es[0]), es[1..], e);
    }
  }

  /** Two messages in a row. */
  lemma LogAllTwo(messages: seq<Event>, a: Event, b: Event)
    ensures LogAll(messages, [a, b]) == Log(Log(messages, a), b)
  {
    assert [a, b][1..] == [b] && [b][1..] == [];
    assert LogAll(Log(messages, a), [b]) == LogAll(Log(Log(messages, a), b), []);
  }
}
