/** Validity windows and what they cover when certificates are renewed. */
module Validity {
  import opened Base

  const SECONDS_PER_DAY: nat := 86_400

  function Seconds(days: u16): nat {
    days * SECONDS_PER_DAY
  }

  /** The expiry computed from the second clock reading, in u64 arithmetic. */
  function ValidBefore(clock: u64, days: u16): u64 {
    (clock + Seconds(days)) % TWO_TO_64
  }

  /** The expiry is exactly the configured number of days of 86,400 seconds after the
      second clock reading, unless that is more than u64 holds; then it lies before
      the reading. It never overflows up to 5,662,224,000 seconds before the end. */
  lemma ExpiryIsExact(clock: u64, days: u16)
    ensures clock + days * 86_400 <= U64_MAX ==> ValidBefore(clock, days) == clock + days * 86_400
    ensures clock + days * 86_400 > U64_MAX ==> ValidBefore(clock, days) == clock + days * 86_400 - TWO_TO_64 < clock
    ensures clock <= U64_MAX - 5_662_224_000 ==> clock + days * 86_400 <= U64_MAX
  {
    var sum := clock + days * 86_400;
    assert sum == clock + Seconds(days) && Seconds(days) <= 5_662_224_000;
    if sum > U64_MAX {
      assert sum % TWO_TO_64 == sum - TWO_TO_64;
    }
  }

  /** With clock readings in order, the window has its full length, and no more than
      the time between the readings on top, exactly when the u64 sum does not
      overflow; otherwise it is empty or shorter. */
  lemma WindowIsFullUnlessOverflow(validAfter: u64, clock: u64, days: u16)
    requires validAfter <= clock
    ensures days * 86_400 <= ValidBefore(clock, days) - validAfter <= days * 86_400 + (clock - validAfter)
            <==> clock + days * 86_400 <= U64_MAX
  {
    ExpiryIsExact(clock, days);
  }

  /** One issuance: the two clock readings and the configured days. */
  datatype Issuance = Issuance(validAfter: u64, clock: u64, days: u16) {
    predicate Sound() {
      validAfter <= clock && clock + Seconds(days) <= U64_MAX
    }

    /** The half-open window of the certificate. */
    predicate Covers(second: nat) {
      validAfter <= second < ValidBefore(clock, days)
    }
  }

  /** Each renewal starts at most the configured days after its predecessor. */
  ghost predicate RenewedInTime(issued: seq<Issuance>) {
    && (forall i :: 0 <= i < |issued| ==> issued[i].Sound())
    && (forall i :: 0 < i < |issued| ==> issued[i].validAfter <= issued[i - 1].validAfter + Seconds(issued[i - 1].days))
  }

  /** Timely renewals leave no gap: every second from the first start up to any
      of the expiries is covered by some certificate. */
  lemma {:induction false} RenewalsLeaveNoGap(issued: seq<Issuance>, j: nat, second: nat)
    requires RenewedInTime(issued) && j < |issued|
    requires issued[0].validAfter <= second < issued[j].clock + issued[j].days * 86_400
    ensures exists i :: 0 <= i < |issued| && issued[i].Covers(second)
    decreases j
  {
    assert issued[j].Sound();
    ExpiryIsExact(issued[j].clock, issued[j].days);
    if issued[j].validAfter <= second {
      assert issued[j].Covers(second);
    } else {
      assert issued[j - 1].Sound();
      RenewalsLeaveNoGap(issued, j - 1, second);
    }
  }

  /** And nothing else is covered: a second is covered exactly if it is neither
      before all starts nor at or after all expiries. */
  lemma CoveredExactlyBetween(issued: seq<Issuance>, second: nat)
    requires RenewedInTime(issued) && issued != []
    requires forall i :: 0 <= i < |issued| ==> issued[0].validAfter <= issued[i].validAfter
    ensures (exists i :: 0 <= i < |issued| && issued[i].Covers(second)) <==>
            && issued[0].validAfter <= second
            && exists j :: 0 <= j < |issued| && second < issued[j].clock + issued[j].days * 86_400
  {
    if i :| 0 <= i < |issued| && issued[i].Covers(second) {
      assert issued[i].Sound();
      ExpiryIsExact(issued[i].clock, issued[i].days);
    }
    if j :| 0 <= j < |issued| && issued[0].validAfter <= second < issued[j].clock + issued[j].days * 86_400 {
      RenewalsLeaveNoGap(issued, j, second);
    }
  }
}
