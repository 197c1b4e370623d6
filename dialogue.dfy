/**
 * The dialogue with one NPC: the greeting (line index -1), then each
 * follow-up line of the NPC's script in order, then closed.
 */
module Dialogue {
  import opened Wrappers
  import opened Content

  /** An open dialogue: the NPC spoken to (its index), the text shown, the line index. */
  datatype Session = Session(npc: nat, text: string, index: int)

  /** The session is at a position of the script and shows that position's text. */
  predicate Shows(s: Session, script: Script)
  {
    && -1 <= s.index < |script.conversations|
    && s.text == (if s.index == -1 then script.greeting else script.conversations[s.index])
  }

  /** Opening a dialogue: the greeting, at the sentinel index -1. */
  function Open(npc: nat, script: Script): (s: Session)
    ensures Shows(s, script) && s.index == -1 && s.npc == npc
  {
    Session(npc, script.greeting, -1)
  }

  /**
   * One advance of an open session: the index goes up by exactly one; the
   * session stays open, showing the line at the new index, exactly when that
   * index is still a line of the script, and closes otherwise.
   */
  function Next(s: Session, script: Script): (r: Option<Session>)
    requires Shows(s, script)
    ensures r.Some? <==> s.index + 1 < |script.conversations|
    ensures r.Some? ==> r.value.index == s.index + 1 && r.value.npc == s.npc && Shows(r.value, script)
  {
    var i := s.index + 1;
    if i >= |script.conversations| then None
    else Some(s.(index := i, text := script.conversations[i]))
  }

  /** An advance request: a no-op when no dialogue is open. */
  function Advance(d: Option<Session>, script: Script): Option<Session>
    requires d.Some? ==> Shows(d.value, script)
  {
    if d.None? then None else Next(d.value, script)
  }

  /** The dialogue after `n` advance requests. */
  function AdvanceTimes(d: Option<Session>, script: Script, n: nat): (r: Option<Session>)
    requires d.Some? ==> Shows(d.value, script)
    ensures r.Some? ==> Shows(r.value, script)
    decreases n
  {
    if n == 0 then d else AdvanceTimes(Advance(d, script), script, n - 1)
  }

  /** A closed dialogue stays closed however often it is advanced. */
  lemma {:induction false} ClosedStaysClosed(script: Script, n: nat)
    ensures AdvanceTimes(None, script, n) == None
  {
    if n > 0 {
      ClosedStaysClosed(script, n - 1);
    }
  }

  /**
   * From any position, m >= 1 advances reach the line m further on while
   * that is a line of the script, and close the dialogue otherwise.
   */
  lemma {:induction false} AdvanceWalk(s: Session, script: Script, m: nat)
    requires Shows(s, script) && 1 <= m
    ensures AdvanceTimes(Some(s), script, m) ==
      if s.index + m < |script.conversations|
      then Some(Session(s.npc, script.conversations[s.index + m], s.index + m))
      else None
    decreases m
  {
    var next := Next(s, script);
    if next.None? {
      ClosedStaysClosed(script, m - 1);
    } else if m > 1 {
      AdvanceWalk(next.value, script, m - 1);
    }
  }

  /**
   * A whole conversation: after opening, the k-th advance (k = 1..n) shows
   * follow-up line k-1 at index k-1, and the (n+1)-th advance closes it.
   */
  lemma ConversationRuns(npc: nat, script: Script)
    ensures forall k :: 0 <= k < |script.conversations| ==>
      AdvanceTimes(Some(Open(npc, script)), script, k + 1) ==
        Some(Session(npc, script.conversations[k], k))
    ensures AdvanceTimes(Some(Open(npc, script)), script, |script.conversations| + 1) == None
  {
    forall k | 0 <= k < |script.conversations|
      ensures AdvanceTimes(Some(Open(npc, script)), script, k + 1) ==
        Some(Session(npc, script.conversations[k], k))
    {
      AdvanceWalk(Open(npc, script), script, k + 1);
    }
    AdvanceWalk(Open(npc, script), script, |script.conversations| + 1);
  }
}
