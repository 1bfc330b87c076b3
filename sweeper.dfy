/**
 * The `expire_stripe_sessions` management command: it walks the open Stripe
 * checkout sessions and asks Stripe to expire those that this shop tagged
 * and that are older than ten minutes. It never touches a stock counter;
 * releasing the hold is left to the expiry webhook.
 */
module Sweeper {
  import opened Common

  const MaxAge: int := 10 * 60
  const CartSource: string := "rarehunter_cart"

  /** An open session as listed: its id, `metadata.get("source")` and creation time. */
  datatype Session = Session(id: string, source: Option<string>, created: int)

  /** What `stripe.checkout.Session.expire(id)` does. */
  datatype ExpireResult = Expired | Raised(message: string)

  predicate Tagged(s: Session) {
    s.source == Some(CartSource)
  }

  /** Strictly older than the maximum age, judged against one instant `now`. */
  predicate Stale(s: Session, now: int) {
    Tagged(s) && now - s.created > MaxAge
  }

  /**
   * The sessions the command asks to expire, in listing order: exactly the
   * tagged stale ones.
   */
  function Selected(sessions: seq<Session>, now: int): (r: seq<Session>)
    ensures |r| <= |sessions|
    ensures forall i :: 0 <= i < |r| ==> r[i] in sessions && Stale(r[i], now)
    ensures forall s :: s in sessions && Stale(s, now) ==> s in r
    decreases |sessions|
  {
    if sessions == [] then []
    else
      var init := Selected(sessions[..|sessions| - 1], now);
      var last := sessions[|sessions| - 1];
      assert forall s :: s in sessions ==> s in sessions[..|sessions| - 1] || s == last;
      if Stale(last, now) then init + [last] else init
  }

  /** The selection keeps the listing order: it is the listing with the other sessions left out. */
  lemma {:induction false} SelectedKeepsOrder(sessions: seq<Session>, now: int)
    ensures Subsequence(Selected(sessions, now), sessions)
    decreases |sessions|
  {
    if sessions != [] {
      var init := sessions[..|sessions| - 1];
      var last := sessions[|sessions| - 1];
      SelectedKeepsOrder(init, now);
      assert sessions == init + [last];
      if Stale(last, now) {
        SubsequenceSnoc(Selected(init, now), init, last);
      } else {
        SubsequenceExtend(Selected(init, now), init, last);
      }
    }
  }

  /**
   * The selection holds each stale session as many times as the listing
   * does, and no other session: nothing is asked to expire twice unless it
   * is listed twice.
   */
  lemma {:induction false} SelectedCounts(sessions: seq<Session>, now: int, s: Session)
    ensures multiset(Selected(sessions, now))[s] == if Stale(s, now) then multiset(sessions)[s] else 0
    decreases |sessions|
  {
    if sessions != [] {
      var init := sessions[..|sessions| - 1];
      var last := sessions[|sessions| - 1];
      SelectedCounts(init, now, s);
      assert sessions == init + [last];
    }
  }

  /** An untagged session is never expired, however old it is. */
  lemma UntaggedNeverSelected(sessions: seq<Session>, now: int, s: Session)
    requires !Tagged(s)
    ensures s !in Selected(sessions, now)
  {
  }

  /** A tagged session exactly `MaxAge` seconds old is kept. */
  lemma AgeExactlyMaxIsKept(sessions: seq<Session>, s: Session)
    requires Tagged(s)
    ensures s !in Selected(sessions, s.created + MaxAge)
    ensures s in sessions ==> s in Selected(sessions, s.created + MaxAge + 1)
  {
  }

  function Ids(sessions: seq<Session>): (r: seq<string>)
    ensures |r| == |sessions|
    ensures forall i :: 0 <= i < |r| ==> r[i] == sessions[i].id
    decreases |sessions|
  {
    if sessions == [] then [] else Ids(sessions[..|sessions| - 1]) + [sessions[|sessions| - 1].id]
  }

  /** The number of expire calls that did not raise. */
  function Succeeded(ids: seq<string>, expire: string -> ExpireResult): (n: nat)
    ensures n <= |ids|
    ensures n == |ids| <==> forall i :: 0 <= i < |ids| ==> expire(ids[i]).Expired?
    decreases |ids|
  {
    if ids == [] then 0
    else Succeeded(ids[..|ids| - 1], expire) + (if expire(ids[|ids| - 1]).Expired? then 1 else 0)
  }

  /** The messages written to stderr, one per expire call that raised. */
  function Errors(ids: seq<string>, expire: string -> ExpireResult): (r: seq<string>)
    ensures |r| + Succeeded(ids, expire) == |ids|
    decreases |ids|
  {
    if ids == [] then []
    else
      var last := expire(ids[|ids| - 1]);
      Errors(ids[..|ids| - 1], expire) + (if last.Raised? then [last.message] else [])
  }

  /** One more listed session extends the selection by it exactly when it is stale. */
  lemma IdsOfSelectedStep(sessions: seq<Session>, i: nat, now: int)
    requires i < |sessions|
    ensures Stale(sessions[i], now) ==> Ids(Selected(sessions[..i + 1], now)) == Ids(Selected(sessions[..i], now)) + [sessions[i].id]
    ensures !Stale(sessions[i], now) ==> Ids(Selected(sessions[..i + 1], now)) == Ids(Selected(sessions[..i], now))
  {
    assert sessions[..i + 1][..i] == sessions[..i];
    var r := Selected(sessions[..i], now);
    if Stale(sessions[i], now) {
      assert (r + [sessions[i]])[..|r|] == r;
    }
  }

  /** One more expire call adds its outcome to the count or to the messages. */
  lemma OutcomeStep(ids: seq<string>, id: string, expire: string -> ExpireResult)
    ensures expire(id).Expired? ==>
              Succeeded(ids + [id], expire) == Succeeded(ids, expire) + 1 && Errors(ids + [id], expire) == Errors(ids, expire)
    ensures expire(id).Raised? ==>
              Succeeded(ids + [id], expire) == Succeeded(ids, expire) && Errors(ids + [id], expire) == Errors(ids, expire) + [expire(id).message]
  {
    assert (ids + [id])[..|ids|] == ids;
  }

  /**
   * `Command.handle`: `now` is read once; every tagged stale session is
   * asked to expire, a failing call is logged and the walk goes on, and the
   * reported count is the number of calls that succeeded.
   */
  method Handle(sessions: seq<Session>, now: int, expire: string -> ExpireResult)
    returns (expired: nat, requested: seq<string>, errors: seq<string>)
    ensures requested == Ids(Selected(sessions, now))
    ensures expired == Succeeded(requested, expire)
    ensures errors == Errors(requested, expire)
    ensures expired + |errors| == |requested| <= |sessions|
  {
    expired, requested, errors := 0, [], [];
    var i := 0;
    while i < |sessions|
      invariant 0 <= i <= |sessions|
      invariant requested == Ids(Selected(sessions[..i], now))
      invariant expired == Succeeded(requested, expire)
      invariant errors == Errors(requested, expire)
    {
      var session := sessions[i];
      IdsOfSelectedStep(sessions, i, now);
      if Stale(session, now) {
        OutcomeStep(requested, session.id, expire);
        requested := requested + [session.id];
        var outcome := expire(session.id);
        if outcome.Expired? {
          expired := expired + 1;
        } else {
          errors := errors + [outcome.message];
        }
      }
      i := i + 1;
    }
    assert sessions[..i] == sessions;
    assert |requested| == |Selected(sessions, now)| <= |sessions|;
  }
}
