/** At-most-once use of nonces, for every consumer that keeps a set of consumed nonces. */
module NonceLedger {

  /** One call on a consumer, reduced to what its nonce set depends on: the nonce, whether the call
      consumes, whether all other safety checks pass, and whether the record that the call builds
      afterwards is valid. */
  datatype Attempt = Attempt(nonce: string, consume: bool, otherwiseSafe: bool, recorded: bool)

  predicate Safe(consumed: set<string>, t: Attempt) {
    t.otherwiseSafe && t.nonce !in consumed
  }

  predicate Burns(consumed: set<string>, t: Attempt) {
    Safe(consumed, t) && t.consume
  }

  predicate Succeeds(consumed: set<string>, t: Attempt) {
    Safe(consumed, t) && t.recorded
  }

  function After(consumed: set<string>, t: Attempt): set<string> {
    if Burns(consumed, t) then consumed + {t.nonce} else consumed
  }

  function Run(consumed: set<string>, attempts: seq<Attempt>): set<string>
    decreases |attempts|
  {
    if attempts == [] then consumed else Run(After(consumed, attempts[0]), attempts[1..])
  }

  /** How many consuming calls pass the safety check for this nonce. */
  function Uses(consumed: set<string>, attempts: seq<Attempt>, nonce: string): nat
    decreases |attempts|
  {
    if attempts == [] then 0 else
    (if attempts[0].nonce == nonce && Burns(consumed, attempts[0]) then 1 else 0)
    + Uses(After(consumed, attempts[0]), attempts[1..], nonce)
  }

  /** A nonce ends up consumed exactly when it was so before or one consuming call passed the safety
      check, and never more than one does: it stays burned even if recording the use fails. */
  lemma {:induction false} UsedAtMostOnce(consumed: set<string>, attempts: seq<Attempt>, nonce: string)
    ensures nonce in consumed ==> Uses(consumed, attempts, nonce) == 0
    ensures Uses(consumed, attempts, nonce) <= 1
    ensures nonce in Run(consumed, attempts) <==> nonce in consumed || Uses(consumed, attempts, nonce) == 1
    decreases |attempts|
  {
    if attempts != [] {
      UsedAtMostOnce(After(consumed, attempts[0]), attempts[1..], nonce);
    }
  }

  /** Once burned, no later call with the nonce succeeds, consuming or not. */
  lemma BurnedStaysRefused(consumed: set<string>, attempts: seq<Attempt>, later: Attempt)
    requires later.nonce in consumed || Uses(consumed, attempts, later.nonce) == 1
    ensures !Succeeds(Run(consumed, attempts), later)
    ensures After(Run(consumed, attempts), later) == Run(consumed, attempts)
  {
    UsedAtMostOnce(consumed, attempts, later.nonce);
  }
}
