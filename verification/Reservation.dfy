/** P2P/host.go keepReservationAlive: renewing a relay reservation before it expires, on an ideal clock in seconds. */
module Reservation {

  /** The time now, and when the reservation held now expires. */
  datatype Hold = Hold(now: int, expires: int)

  /** One call to Reserve: how long it took, and what it granted, counted from the start of the call. */
  datatype Attempt = Renewed(took: nat, grant: nat) | Refused(took: nat)

  function Wait(h: Hold): int {
    if h.expires - h.now - 30 < 5 then 5 else h.expires - h.now - 30
  }

  /** One round of the loop: sleep, call Reserve, and sleep 10 s more if it failed. */
  function Round(h: Hold, a: Attempt): Hold {
    var call := h.now + Wait(h);
    match a
    case Renewed(took, grant) => Hold(call + took, call + grant)
    case Refused(took) => Hold(call + took + 10, h.expires)
  }

  /** The reservation held at the start of the round is still valid when the round is over. */
  predicate Lasts(h: Hold, a: Attempt) {
    h.now + Wait(h) + (if a.Renewed? then a.took else a.took + 10) < h.expires
  }

  predicate NeverLapses(h: Hold, attempts: seq<Attempt>)
    decreases |attempts|
  {
    |attempts| == 0 || (Lasts(h, attempts[0]) && NeverLapses(Round(h, attempts[0]), attempts[1..]))
  }

  function Rounds(h: Hold, attempts: seq<Attempt>): Hold
    decreases |attempts|
  {
    if |attempts| == 0 then h else Rounds(Round(h, attempts[0]), attempts[1..])
  }

  /** Every call succeeds within t seconds and grants more than g. The loop's own timeout is 15 s. */
  predicate Obliging(attempts: seq<Attempt>, t: nat, g: nat) {
    forall i :: 0 <= i < |attempts| ==> attempts[i].Renewed? && attempts[i].took <= t && attempts[i].grant > g
  }

  /** The loop, for as many rounds as there are attempts. */
  method KeepAlive(start: Hold, attempts: seq<Attempt>) returns (h: Hold, held: bool)
    ensures h == Rounds(start, attempts) && held == NeverLapses(start, attempts)
  {
    h, held := start, true;
    for i := 0 to |attempts|
      invariant Rounds(start, attempts) == Rounds(h, attempts[i..])
      invariant NeverLapses(start, attempts) == (held && NeverLapses(h, attempts[i..]))
    {
      var a := attempts[i];
      assert attempts[i..][0] == a && attempts[i..][1..] == attempts[i + 1..];
      var wait := h.expires - h.now - 30;
      if wait < 5 {
        wait := 5;
      }
      var call := h.now + wait;
      held := held && Lasts(h, a);
      match a
      case Renewed(took, grant) => h := Hold(call + took, call + grant);
      case Refused(took) => h := Hold(call + took + 10, h.expires);
    }
  }

  lemma {:induction false} ObligingKeeps(h: Hold, attempts: seq<Attempt>, t: nat, g: nat)
    requires t < 30 && t + 5 < h.expires - h.now && g >= 2 * t + 5 && Obliging(attempts, t, g)
    ensures NeverLapses(h, attempts)
    decreases |attempts|
  {
    if |attempts| > 0 {
      assert attempts[0].Renewed?;
      ObligingKeeps(Round(h, attempts[0]), attempts[1..], t, g);
    }
  }

  /**
   Continuity: a relay that answers within t and grants more than g keeps the reservation alive
   for ever, exactly if t is under 30 s, more than t + 5 are left at the start, and g is at least
   2t + 5. With the timeout of 15 s: more than 20 s left, and grants of more than 35 s.
   */
  lemma {:induction false} Continuity(h: Hold, t: nat, g: nat)
    ensures (forall attempts: seq<Attempt> :: Obliging(attempts, t, g) ==> NeverLapses(h, attempts))
            <==> t < 30 && t + 5 < h.expires - h.now && g >= 2 * t + 5
  {
    if t < 30 && t + 5 < h.expires - h.now && g >= 2 * t + 5 {
      forall attempts: seq<Attempt> | Obliging(attempts, t, g)
        ensures NeverLapses(h, attempts)
      {
        ObligingKeeps(h, attempts, t, g);
      }
    } else {
      var slow := Renewed(t, g + 1);
      var attempts := [slow, slow];
      assert attempts[1..] == [slow];
      assert Obliging(attempts, t, g) && !NeverLapses(h, attempts);
    }
  }

  /**
   A refused call is survived exactly when it and the next one together are quick enough: less
   than 15 s with 35 s or more left at the start of the round, else less than what exceeds 20 s.
   */
  lemma {:induction false} OneRefusal(h: Hold, refused: nat, took: nat, grant: nat)
    ensures NeverLapses(h, [Refused(refused), Renewed(took, grant)])
            <==> refused + took < if h.expires - h.now >= 35 then 15 else h.expires - h.now - 20
  {
    var attempts := [Refused(refused), Renewed(took, grant)];
    var h1 := Round(h, attempts[0]);
    assert Wait(h1) == 5;
    assert attempts[1..] == [Renewed(took, grant)];
    assert NeverLapses(h1, [Renewed(took, grant)]) == Lasts(h1, Renewed(took, grant)) by {
      assert [Renewed(took, grant)][1..] == [];
    }
  }

  /** The next call comes at least 5 s after the previous one returned, 15 s if that was refused. */
  lemma {:induction false} Spacing(h: Hold, a: Attempt)
    ensures Round(h, a).now + Wait(Round(h, a)) >= h.now + Wait(h) + a.took + if a.Refused? then 15 else 5
  {
  }
}
