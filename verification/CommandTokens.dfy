/**
 Allocating a 16-bit command token for a target: probing from a hash of the command id. The hash and the
 query that resolves a token are functions; "" is the answer for a token nobody holds.
 */
module CommandTokens {
  import opened Wrappers

  const LIMIT := 0xFFFF

  /** `commandTokenForID`: the low 16 bits of the hash, never zero. */
  function StartToken(hash: nat): (r: int)
    ensures 1 <= r <= LIMIT
  {
    if hash % 0x1_0000 == 0 then 1 else hash % 0x1_0000
  }

  /** The token looked at in round `k`. */
  function Probe(start: int, k: nat): (r: int)
    requires 1 <= start <= LIMIT
    ensures 1 <= r <= LIMIT
  {
    (start - 1 + k) % LIMIT + 1
  }

  /** Probing begins at the low 16 bits of the hash, counts up, and goes on at 1 after 65535. */
  lemma ProbesCountUp(hash: nat, k: nat)
    ensures Probe(StartToken(hash), 0) == if hash % 65536 == 0 then 1 else hash % 65536
    ensures Probe(StartToken(hash), k + 1) ==
              if Probe(StartToken(hash), k) == 65535 then 1 else Probe(StartToken(hash), k) + 1
  {
  }

  /** The round in which a token is looked at. */
  function RoundOf(start: int, token: int): (r: nat)
    requires 1 <= start <= LIMIT && 1 <= token <= LIMIT
    ensures r < LIMIT
  {
    (token - start) % LIMIT
  }

  /** Within 65535 rounds every token is looked at in exactly one round, from any start. */
  lemma EachTokenOnce(start: int, token: int, k: nat)
    requires 1 <= start <= LIMIT && 1 <= token <= LIMIT && k < LIMIT
    ensures Probe(start, k) == token <==> k == RoundOf(start, token)
  {
  }

  /** Nobody else holds the token. */
  predicate Usable(resolve: int -> string, id: string, token: int) { resolve(token) == "" || resolve(token) == id }

  /** The first usable token in probing order. */
  predicate IsAllocation(hash: nat, id: string, resolve: int -> string, token: int)
  {
    && 1 <= token <= LIMIT && Usable(resolve, id, token)
    && forall t :: 1 <= t <= LIMIT && RoundOf(StartToken(hash), t) < RoundOf(StartToken(hash), token) ==>
         !Usable(resolve, id, t)
  }

  /** A command that has a token already keeps it, unless a free one comes earlier in its round. */
  lemma OwnTokenIsKept(hash: nat, id: string, resolve: int -> string, own: int, token: int)
    requires 1 <= own <= LIMIT && resolve(own) == id && IsAllocation(hash, id, resolve, token)
    ensures RoundOf(StartToken(hash), token) <= RoundOf(StartToken(hash), own)
    ensures resolve(token) == "" || resolve(token) == id
    ensures (forall t :: 1 <= t <= LIMIT && t != own ==> resolve(t) != "" && resolve(t) != id) ==> token == own
  {
  }

  /** `allocateCommandToken`: the first usable token in probing order, and none only when all 65535
      tokens are held by other commands. */
  method Allocate(hash: nat, id: string, resolve: int -> string) returns (r: Option<int>)
    ensures r.Some? ==> IsAllocation(hash, id, resolve, r.value)
    ensures r.None? <==> forall t :: 1 <= t <= LIMIT ==> !Usable(resolve, id, t)
  {
    var start := StartToken(hash);
    var token := start;
    for attempts := 0 to LIMIT
      invariant 1 <= token <= LIMIT && token == Probe(start, attempts)
      invariant forall k: nat :: k < attempts ==> !Usable(resolve, id, Probe(start, k))
    {
      var resolved := resolve(token);
      if resolved == "" || resolved == id {
        assert Usable(resolve, id, token);
        EachTokenOnce(start, token, attempts);
        forall t | 1 <= t <= LIMIT && RoundOf(start, t) < RoundOf(start, token) ensures !Usable(resolve, id, t) {
          EachTokenOnce(start, t, RoundOf(start, t));
        }
        return Some(token);
      }
      token := token + 1;
      if token > LIMIT {
        token := 1;
      }
    }
    forall t | 1 <= t <= LIMIT ensures !Usable(resolve, id, t) {
      EachTokenOnce(start, t, RoundOf(start, t));
    }
    r := None;
  }
}
