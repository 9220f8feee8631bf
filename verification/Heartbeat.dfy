/** The heartbeat of a mesh link (node/mesh.py, `_heartbeat_loop`) with ideal five-second
    ticks, counted from the handshake.  Tick k happens at 5k seconds: it sends PING k and then
    looks at the silence since the last PONG. */
module Heartbeat {
  import opened Base

  const PING_INTERVAL: real := 5.0
  const PONG_GRACE: real := 12.0

  /** When the answer to PING j arrives, if it ever does.  Link start counts as a PONG at 0. */
  type Answers = nat -> Option<real>

  function TickTime(k: nat): real {
    PING_INTERVAL * k as real
  }

  /** No answer precedes its PING. */
  ghost predicate Causal(pong: Answers) {
    forall j: nat :: pong(j).Some? ==> pong(j).value >= TickTime(j)
  }

  /** liveness["last_pong_at"] at tick k: the latest answer to one of PINGs 1..n that arrived
      before the tick.  An answer arriving at the very tick is not seen by it. */
  function LastPongAmong(pong: Answers, k: nat, n: nat): real {
    if n == 0 then 0.0
    else
      var earlier := LastPongAmong(pong, k, n - 1);
      if pong(n).Some? && earlier < pong(n).value < TickTime(k) then pong(n).value else earlier
  }

  function LastPong(pong: Answers, k: nat): real {
    LastPongAmong(pong, k, k)
  }

  predicate Dead(pong: Answers, k: nat) {
    TickTime(k) - LastPong(pong, k) > PONG_GRACE
  }

  /** The loop: it stops at the first tick that finds the link dead. */
  method HeartbeatLoop(pong: Answers, limit: nat) returns (died: Option<nat>)
    ensures died.None? ==> forall k :: 1 <= k <= limit ==> !Dead(pong, k)
    ensures died.Some? ==> 1 <= died.value <= limit && Dead(pong, died.value)
    ensures died.Some? ==> forall k :: 1 <= k < died.value ==> !Dead(pong, k)
  {
    var k := 0;
    while k < limit
      invariant k <= limit
      invariant forall i :: 1 <= i <= k ==> !Dead(pong, i)
    {
      k := k + 1;
      var silence := TickTime(k) - LastPong(pong, k);
      if silence > PONG_GRACE {
        return Some(k);
      }
    }
    return None;
  }

  lemma {:induction false} LastPongBounds(pong: Answers, k: nat, n: nat)
    ensures forall j :: 1 <= j <= n && pong(j).Some? && pong(j).value < TickTime(k) ==>
        pong(j).value <= LastPongAmong(pong, k, n)
    ensures LastPongAmong(pong, k, n) == 0.0 ||
            exists j :: 1 <= j <= n && pong(j).Some? && pong(j).value == LastPongAmong(pong, k, n) < TickTime(k)
    ensures LastPongAmong(pong, k, n) >= 0.0
  {
    if n > 0 {
      LastPongBounds(pong, k, n - 1);
    }
  }

  /** Every PING is answered no later than `d` seconds after it was sent. */
  ghost predicate AnswersWithin(pong: Answers, d: real) {
    Causal(pong) && forall j: nat :: j >= 1 ==> pong(j).Some? && pong(j).value <= TickTime(j) + d
  }

  /** A peer answering within d < 10 s is never declared dead: two ticks back there was a PING
      whose answer has arrived by now, so the silence never exceeds 10 s. */
  lemma AnsweringPeerSurvives(pong: Answers, d: real, k: nat)
    requires d < 2.0 * PING_INTERVAL && AnswersWithin(pong, d) && k >= 1
    ensures !Dead(pong, k) && TickTime(k) - LastPong(pong, k) <= 2.0 * PING_INTERVAL
  {
    LastPongBounds(pong, k, k);
    if k >= 3 {
      var j: nat := k - 2;
      assert j as real == k as real - 2.0;
      assert pong(j).Some?;
    }
  }

  /** PING 1 answered at once, every later one after d seconds. */
  function LateAnswers(d: real): Answers {
    (j: nat) => if j <= 1 then Some(TickTime(j)) else Some(TickTime(j) + d)
  }

  /** The response time the heartbeat tolerates is exactly "less than two ping intervals". */
  lemma ToleratedDelay(d: real)
    requires d >= 0.0
    ensures d < 2.0 * PING_INTERVAL <==>
            forall pong: Answers, k: nat :: AnswersWithin(pong, d) && k >= 1 ==> !Dead(pong, k)
  {
    if d < 2.0 * PING_INTERVAL {
      forall pong: Answers, k: nat | AnswersWithin(pong, d) && k >= 1 ensures !Dead(pong, k) {
        AnsweringPeerSurvives(pong, d, k);
      }
    } else {
      var pong := LateAnswers(d);
      assert AnswersWithin(pong, d);
      LastPongBounds(pong, 4, 4);
      forall j: nat | j >= 2 ensures pong(j).value >= TickTime(4) {
        assert j as real >= 2.0;
      }
      assert Dead(pong, 4);
    }
  }

  /** A peer whose last PONG arrived at time `p` (or never answered, p = 0) and whose link was
      alive until then is declared dead more than 12 s and at most 17 s after it. */
  lemma SilentPeerDies(pong: Answers, p: real) returns (k: nat)
    requires Causal(pong) && p >= 0.0
    requires forall j: nat :: j >= 1 && pong(j).Some? ==> pong(j).value <= p
    requires p == 0.0 || exists j: nat :: j >= 1 && pong(j) == Some(p)
    requires forall i: nat :: 1 <= i && TickTime(i) <= p ==> !Dead(pong, i)
    ensures k >= 1 && Dead(pong, k) && forall i: nat :: 1 <= i < k ==> !Dead(pong, i)
    ensures PONG_GRACE < TickTime(k) - p <= PONG_GRACE + PING_INTERVAL
  {
    var f := ((p + PONG_GRACE) / PING_INTERVAL).Floor;
    k := f + 1;
    assert k as real == f as real + 1.0;
    forall i: nat | i >= 1 && TickTime(i) > p ensures LastPong(pong, i) == p {
      LastPongIs(pong, p, i);
    }
    forall i: nat | 1 <= i < k ensures !Dead(pong, i) {
      assert i as real <= f as real;
    }
  }

  lemma LastPongIs(pong: Answers, p: real, i: nat)
    requires Causal(pong) && p >= 0.0 && TickTime(i) > p
    requires forall j: nat :: j >= 1 && pong(j).Some? ==> pong(j).value <= p
    requires p == 0.0 || exists j: nat :: j >= 1 && pong(j) == Some(p)
    ensures LastPong(pong, i) == p
  {
    LastPongBounds(pong, i, i);
    if p != 0.0 {
      var j: nat :| j >= 1 && pong(j) == Some(p);
      assert TickTime(j) <= p;
      assert j as real < i as real;
    }
  }
}
