/**
 The single-use nonce store: SET NX EX to register, GETDEL to consume.  A vault run takes one store
 command per step; here they are the methods of the store object, over the same key map.
 */
module NonceStore {
  import opened Wrappers
  import opened Envelope
  import opened Vault

  datatype NonceError = NotConfigured | Replayed | NotFound | TenantMismatch

  class Store {
    const ttl: int
    var entries: Nonces

    constructor (ttl: int)
      ensures this.ttl == ttl && entries == map[]
    {
      this.ttl := ttl;
      entries := map[];
    }

    method Register(nonce: Nonce, tenant: Bytes, now: int) returns (r: Result<(), NonceError>)
      modifies this
      ensures r == if nonce == [] || tenant == [] then Err(NotConfigured)
                   else if NoncePresent(old(entries), nonce, now) then Err(Replayed)
                   else Ok(())
      ensures entries == if r.Ok? then SetNonce(old(entries), nonce, tenant, now + ttl) else old(entries)
    {
      if nonce == [] || tenant == [] { return Err(NotConfigured); }
      if NoncePresent(entries, nonce, now) { return Err(Replayed); }
      entries := SetNonce(entries, nonce, tenant, now + ttl);
      return Ok(());
    }

    /** Deletes the key whoever asks; a caller of another tenant spends the nonce. */
    method Consume(nonce: Nonce, tenant: Bytes, now: int) returns (r: Result<(), NonceError>)
      modifies this
      ensures r == if !NoncePresent(old(entries), nonce, now) then Err(NotFound)
                   else if old(entries)[nonce].tenant != tenant then Err(TenantMismatch)
                   else Ok(())
      ensures entries == GetDelNonce(old(entries), nonce)
    {
      var found := NoncePresent(entries, nonce, now);
      var stored := if found then entries[nonce].tenant else [];
      entries := GetDelNonce(entries, nonce);
      if !found { return Err(NotFound); }
      if stored != tenant { return Err(TenantMismatch); }
      return Ok(());
    }

    /**
     Any sequence of attempts on one nonce: at most one succeeds, only the first can, and it does
     exactly when the nonce is present and the first to ask is its tenant.
     */
    method ConsumeAll(nonce: Nonce, tenants: seq<Bytes>, times: seq<int>) returns (wins: seq<bool>)
      requires |tenants| == |times|
      modifies this
      ensures |wins| == |tenants|
      ensures forall i :: 0 <= i < |wins| ==>
                (wins[i] <==> i == 0 && NoncePresent(old(entries), nonce, times[0])
                              && old(entries)[nonce].tenant == tenants[0])
      ensures tenants != [] ==> entries == GetDelNonce(old(entries), nonce)
    {
      wins := [];
      for i := 0 to |tenants|
        invariant |wins| == i
        invariant i == 0 ==> entries == old(entries)
        invariant i > 0 ==> entries == GetDelNonce(old(entries), nonce)
        invariant forall j :: 0 <= j < i ==>
                    (wins[j] <==> j == 0 && NoncePresent(old(entries), nonce, times[0])
                                  && old(entries)[nonce].tenant == tenants[0])
      {
        var r := Consume(nonce, tenants[i], times[i]);
        wins := wins + [r.Ok?];
      }
    }

    /** While a nonce is present, nobody can bind it to another tenant. */
    method RegisterTwice(nonce: Nonce, first: Bytes, second: Bytes, now: int, later: int)
      returns (a: Result<(), NonceError>, b: Result<(), NonceError>)
      requires now <= later
      modifies this
      ensures a.Ok? && later < now + ttl && second != [] ==>
                b == Err(Replayed) && nonce in entries && entries[nonce].tenant == first
    {
      a := Register(nonce, first, now);
      b := Register(nonce, second, later);
    }

    /**
     Registered and then asked for: the nonce is good for its own tenant for as long as it lives, up to
     but not including its end, once; whoever asks, it is gone.
     */
    method RegisterThenConsume(nonce: Nonce, tenant: Bytes, asker: Bytes, now: int, later: int)
      returns (a: Result<(), NonceError>, b: Result<(), NonceError>)
      requires now <= later
      modifies this
      ensures a.Ok? <==> nonce != [] && tenant != []
                         && !(nonce in old(entries) && now < old(entries)[nonce].expiresAt)
      ensures a.Ok? ==> (b.Ok? <==> asker == tenant && later < now + ttl) && nonce !in entries
      ensures a.Ok? ==> (b == Err(NotFound) <==> later >= now + ttl)
      ensures forall n :: n != nonce ==> (n in entries <==> n in old(entries))
                                         && (n in entries ==> entries[n] == old(entries)[n])
    {
      a := Register(nonce, tenant, now);
      b := Consume(nonce, asker, later);
    }

    /** A callback's consume step is this method: the callback wins exactly when it succeeds. */
    method ConsumeAsStep(ghost w: World, ghost w': World, ghost cb: CallbackId, nonce: Nonce, tenant: Bytes, now: int)
      returns (r: Result<(), NonceError>)
      requires ConsumeStep(w, w', cb) && w.now == now && w.nonces == entries
      requires w.callbacks[cb].nonce == nonce && w.callbacks[cb].tenant == tenant
      modifies this
      ensures entries == w'.nonces && (r.Ok? <==> w'.callbacks[cb].pc == Won)
    {
      r := Consume(nonce, tenant, now);
    }
  }
}
