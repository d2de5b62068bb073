/**
 * The UDP exchange behind `_send_request` (hub.py), abstracted: a link says what reply, if any,
 * comes back for a request on a given attempt. Sockets and timeouts are not modelled. The
 * request type is a parameter: the client sends byte frames, the hub answers the request it
 * decodes from them.
 */
module Transport {
  import opened Wrappers
  import opened Bytes

  /** The reply to request `q` on attempt number `k` (0-based), or None for a timeout or socket error. */
  type Link<!Q> = (Q, nat) -> Option<seq<byte>>

  /** The first reply among attempts `k..retries`. */
  function ReplyFrom<Q>(link: Link<Q>, q: Q, k: nat, retries: nat): Option<seq<byte>>
    decreases retries + 1 - k
  {
    if k > retries then None
    else match link(q, k)
      case Some(r) => Some(r)
      case None => ReplyFrom(link, q, k + 1, retries)
  }

  /** What `_send_request(packet, retries)` returns. */
  function Reply<Q>(link: Link<Q>, q: Q, retries: nat): Option<seq<byte>>
  {
    ReplyFrom(link, q, 0, retries)
  }

  /** The reply is the one of the first answered attempt among the `retries + 1` made. */
  lemma {:induction false} ReplyFromIsFirstAnswer<Q>(link: Link<Q>, q: Q, k: nat, retries: nat)
    decreases retries + 1 - k
    ensures ReplyFrom(link, q, k, retries).None? <==> forall j :: k <= j <= retries ==> link(q, j).None?
    ensures ReplyFrom(link, q, k, retries).Some? ==>
      exists j :: k <= j <= retries && link(q, j) == ReplyFrom(link, q, k, retries)
        && forall i :: k <= i < j ==> link(q, i).None?
  {
    if k <= retries {
      ReplyFromIsFirstAnswer(link, q, k + 1, retries);
      if link(q, k).None? {
        if ReplyFrom(link, q, k, retries).Some? {
          var j :| k + 1 <= j <= retries && link(q, j) == ReplyFrom(link, q, k + 1, retries)
            && forall i :: k + 1 <= i < j ==> link(q, i).None?;
          assert forall i :: k <= i < j ==> link(q, i).None?;
        }
      }
    }
  }

  /** Two links that agree on every attempt for `p` and `q` give the same reply. */
  lemma {:induction false} ReplyFromAgrees<P, Q>(a: Link<P>, p: P, b: Link<Q>, q: Q, k: nat, retries: nat)
    requires forall j :: a(p, j) == b(q, j)
    decreases retries + 1 - k
    ensures ReplyFrom(a, p, k, retries) == ReplyFrom(b, q, k, retries)
  {
    if k <= retries {
      ReplyFromAgrees(a, p, b, q, k + 1, retries);
    }
  }

  /** `_send_request`: up to `retries + 1` attempts, returning the first reply received. */
  method SendRequest<Q>(link: Link<Q>, q: Q, retries: nat) returns (reply: Option<seq<byte>>)
    ensures reply == Reply(link, q, retries)
    ensures reply.None? <==> forall j :: 0 <= j <= retries ==> link(q, j).None?
  {
    ReplyFromIsFirstAnswer(link, q, 0, retries);
    var attempt := 0;
    while attempt <= retries
      invariant attempt <= retries + 1
      invariant ReplyFrom(link, q, attempt, retries) == Reply(link, q, retries)
    {
      var data := link(q, attempt);
      if data.Some? {
        return data;
      }
      attempt := attempt + 1;
    }
    return None;
  }
}
