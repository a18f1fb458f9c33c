/** Single-use session tickets. */
module SessionStore {
  import opened Wrappers
  import opened Bytes

  datatype TicketPayload = TicketPayload(
    correlationId: string, aesKey: bytes, clientSigPublicKey: bytes, serverSigPublicKey: bytes, expiresAt: int)

  /** How many consumed tickets are remembered. */
  const MAX_CONSUMED := 50_000

  /**
   * Tickets under the store's master key: encryption, authentication and text form.
   * Opening yields nothing for a string that was not made under this key.
   */
  datatype TicketCodec = TicketCodec(make: (TicketPayload, bytes) -> string, parse: string -> Option<TicketPayload>) {
    /** An issued ticket opens to its payload. */
    ghost predicate Sound() {
      forall p, iv :: parse(make(p, iv)) == Some(p)
    }
  }

  /** One redemption attempt. */
  datatype Attempt = Attempt(ticket: string, now: int, consume: bool)

  // ---------- Specification ----------

  function Issued(codec: TicketCodec, correlationId: string, aesKey: bytes, clientSigPublicKey: bytes, serverSigPublicKey: bytes,
                  now: int, ttlMs: int, iv: bytes): string
  {
    codec.make(TicketPayload(correlationId, aesKey, clientSigPublicKey, serverSigPublicKey, now + ttlMs), iv)
  }

  function Redeemed(codec: TicketCodec, consumed: seq<string>, a: Attempt): Option<TicketPayload> {
    if a.ticket in consumed then None
    else
      var payload := codec.parse(a.ticket);
      if payload.None? || a.now > payload.value.expiresAt then None else payload
  }

  /** The consumed tickets after an attempt; a full list forgets its oldest one. */
  function After(codec: TicketCodec, consumed: seq<string>, a: Attempt): seq<string> {
    if Redeemed(codec, consumed, a).None? || !a.consume then consumed
    else (if |consumed| >= MAX_CONSUMED then consumed[1..] else consumed) + [a.ticket]
  }

  // ---------- Implementation ----------

  class SessionStore {
    const codec: TicketCodec
    var consumedTickets: seq<string>

    constructor (codec: TicketCodec)
      ensures this.codec == codec && consumedTickets == []
    {
      this.codec := codec;
      consumedTickets := [];
    }

    method Issue(correlationId: string, aesKey: bytes, clientSigPublicKey: bytes, serverSigPublicKey: bytes,
                 now: int, ttlMs: int, iv: bytes) returns (ticket: string)
      ensures ticket == Issued(codec, correlationId, aesKey, clientSigPublicKey, serverSigPublicKey, now, ttlMs, iv)
      ensures codec.Sound() ==> forall consumed: seq<string>, a: Attempt :: a.ticket == ticket ==>
        Redeemed(codec, consumed, a) ==
          if ticket !in consumed && a.now <= now + ttlMs
          then Some(TicketPayload(correlationId, aesKey, clientSigPublicKey, serverSigPublicKey, now + ttlMs)) else None
    {
      ticket := codec.make(TicketPayload(correlationId, aesKey, clientSigPublicKey, serverSigPublicKey, now + ttlMs), iv);
    }

    method Redeem(a: Attempt) returns (r: Option<TicketPayload>)
      modifies this
      ensures r == Redeemed(codec, old(consumedTickets), a)
      ensures consumedTickets == After(codec, old(consumedTickets), a)
      ensures r.Some? <==>
        a.ticket !in old(consumedTickets) && codec.parse(a.ticket).Some? && a.now <= codec.parse(a.ticket).value.expiresAt
      ensures r.Some? ==> r == codec.parse(a.ticket)
      ensures consumedTickets ==
        if r.None? || !a.consume then old(consumedTickets)
        else (if |old(consumedTickets)| < 50_000 then old(consumedTickets) else old(consumedTickets)[1..]) + [a.ticket]
    {
      if a.ticket in consumedTickets {
        return None;
      }
      var payload := codec.parse(a.ticket);
      if payload.None? {
        return None;
      }
      if a.now > payload.value.expiresAt {
        return None;
      }
      if a.consume {
        if |consumedTickets| >= MAX_CONSUMED {
          consumedTickets := consumedTickets[1..];
        }
        consumedTickets := consumedTickets + [a.ticket];
      }
      r := payload;
    }
  }

  // ---------- Runs ----------

  function Consumed(codec: TicketCodec, attempts: seq<Attempt>): seq<string> {
    if attempts == [] then [] else After(codec, Consumed(codec, attempts[..|attempts| - 1]), attempts[|attempts| - 1])
  }

  /** Attempt i redeems and consumes its ticket. */
  predicate ConsumesAt(codec: TicketCodec, attempts: seq<Attempt>, i: nat)
    requires i < |attempts|
  {
    attempts[i].consume && Redeemed(codec, Consumed(codec, attempts[..i]), attempts[i]).Some?
  }

  /** The consuming redemptions among attempts i to j, the last excluded. */
  function Consumptions(codec: TicketCodec, attempts: seq<Attempt>, i: nat, j: nat): nat
    requires i <= j <= |attempts|
    decreases j - i
  {
    if i == j then 0
    else Consumptions(codec, attempts, i, j - 1) + if ConsumesAt(codec, attempts, j - 1) then 1 else 0
  }

  lemma {:induction false} ConsumedBounded(codec: TicketCodec, attempts: seq<Attempt>)
    ensures |Consumed(codec, attempts)| <= 50_000
    decreases |attempts|
  {
    if attempts != [] {
      ConsumedBounded(codec, attempts[..|attempts| - 1]);
    }
  }

  /** The ticket is remembered with exactly n later ones behind it. */
  predicate Behind(consumed: seq<string>, ticket: string, n: nat) {
    n < |consumed| && consumed[|consumed| - 1 - n] == ticket
  }

  lemma {:induction false} HeldOrPushedOut(codec: TicketCodec, attempts: seq<Attempt>, i: nat, j: nat)
    requires i < j <= |attempts| && ConsumesAt(codec, attempts, i)
    ensures
      || Behind(Consumed(codec, attempts[..j]), attempts[i].ticket, Consumptions(codec, attempts, i + 1, j))
      || Consumptions(codec, attempts, i + 1, j) >= MAX_CONSUMED
    decreases j
  {
    hide Redeemed;
    var m := j - 1;
    assert attempts[..j][..m] == attempts[..m] && attempts[..j][m] == attempts[m];
    if m > i {
      HeldOrPushedOut(codec, attempts, i, m);
      ConsumedBounded(codec, attempts[..m]);
    }
  }

  /** Two consuming redemptions of one ticket string have at least 50000 others between them. */
  lemma ReuseIsSpaced(codec: TicketCodec, attempts: seq<Attempt>, i: nat, j: nat)
    requires i < j < |attempts|
    requires ConsumesAt(codec, attempts, i) && ConsumesAt(codec, attempts, j)
    requires attempts[i].ticket == attempts[j].ticket
    ensures Consumptions(codec, attempts, i + 1, j) >= 50_000
  {
    HeldOrPushedOut(codec, attempts, i, j);
  }

  /** An issued ticket redeems to what was issued, exactly while unexpired and not remembered as consumed. */
  lemma IssuedRedeems(codec: TicketCodec, consumed: seq<string>, payload: TicketPayload, iv: bytes, a: Attempt)
    requires codec.Sound() && a.ticket == codec.make(payload, iv)
    ensures Redeemed(codec, consumed, a) ==
      if a.ticket !in consumed && a.now <= payload.expiresAt then Some(payload) else None
  {
  }
}
