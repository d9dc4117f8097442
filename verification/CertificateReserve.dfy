/**
 Reserving the service budget for a certificate transaction. One database transaction books the
 liability, claims the predecessor's only successor slot, takes the next nonce and stores the signed
 bytes. Liabilities are never given back.
 */
module CertificateReserve {
  import opened Options
  import opened Texts

  /** Signed bytes as the relayer stores them. */
  datatype SignedBytes = SignedBytes(raw: Text, hash: Text, signature: Text)

  datatype Liability = Liability(scope: Text, wei: nat)

  /** A stored attempt; `budget` is absent on rows older than the budget columns. */
  datatype Attempt = Attempt(intentId: Text, bytes: SignedBytes, nonce: nat, budget: Option<Liability>)

  datatype ClaimKey = ClaimKey(certificateId: Text, predecessor: nat)

  datatype Tables = Tables(
    budgets: map<Text, nat>, attempts: seq<Attempt>, claims: map<ClaimKey, Text>, nextNonces: map<Text, nat>)

  datatype Policy = Policy(scope: Text, maxWei: nat, reservationWei: nat)

  datatype SuccessorClaim = SuccessorClaim(key: ClaimKey, reclaimable: set<Text>)

  datatype ReserveError = BadPolicy | SuccessorClaimed(holder: Text) | UnverifiableLegacy | OverBudget | BuildFailed

  /** What a caller asks for; `build` signs the transaction for a nonce, or fails. */
  datatype Request = Request(
    intentId: Text, deployment: Text, pendingNonce: nat, policy: Policy, build: nat -> Option<SignedBytes>, successor: Option<SuccessorClaim>)

  /** Reads the chain, sender and largest liability out of signed bytes, if they can be verified. */
  type Decoder = SignedBytes -> Option<Liability>

  const UINT256_MAX: nat := 0xFFFF_FFFF_FFFF_FFFF_FFFF_FFFF_FFFF_FFFF_FFFF_FFFF_FFFF_FFFF_FFFF_FFFF_FFFF_FFFF

  predicate PositiveBudget(wei: nat) { 0 < wei <= UINT256_MAX }

  function AttemptOf(attempts: seq<Attempt>, intentId: Text): Option<Attempt>
  {
    if attempts == [] then None
    else if attempts[|attempts| - 1].intentId == intentId then Some(attempts[|attempts| - 1])
    else AttemptOf(attempts[..|attempts| - 1], intentId)
  }

  predicate Signed(attempts: seq<Attempt>, intentId: Text) { AttemptOf(attempts, intentId).Some? }

  /** The slot goes to the caller unless its holder has signed bytes that may still win. */
  function ClaimedFor(t: Tables, intentId: Text, claim: SuccessorClaim): Result<map<ClaimKey, Text>, ReserveError>
  {
    if claim.key in t.claims && t.claims[claim.key] != intentId &&
       Signed(t.attempts, t.claims[claim.key]) && t.claims[claim.key] !in claim.reclaimable
    then Err(SuccessorClaimed(t.claims[claim.key]))
    else Ok(t.claims[claim.key := intentId])
  }

  // ----- Rows older than the budget columns

  predicate LegacyOf(a: Attempt, scope: Text, decode: Decoder)
  {
    a.budget.None? && decode(a.bytes).Some? && decode(a.bytes).value.scope == scope
  }

  function TaggedRow(a: Attempt, scope: Text, decode: Decoder): Attempt
  {
    if LegacyOf(a, scope, decode) then a.(budget := decode(a.bytes)) else a
  }

  function Tagged(attempts: seq<Attempt>, scope: Text, decode: Decoder): seq<Attempt>
  {
    seq(|attempts|, i requires 0 <= i < |attempts| => TaggedRow(attempts[i], scope, decode))
  }

  function LegacyTotal(attempts: seq<Attempt>, scope: Text, decode: Decoder): nat
  {
    if attempts == [] then 0
    else
      var a := attempts[|attempts| - 1];
      LegacyTotal(attempts[..|attempts| - 1], scope, decode) + (if LegacyOf(a, scope, decode) then decode(a.bytes).value.wei else 0)
  }

  predicate AllVerifiable(attempts: seq<Attempt>, decode: Decoder)
  {
    forall i | 0 <= i < |attempts| :: attempts[i].budget.None? ==> decode(attempts[i].bytes).Some?
  }

  // ----- The transaction

  function WithBudgetRow(t: Tables, scope: Text): Tables
  {
    if scope in t.budgets then t else t.(budgets := t.budgets[scope := 0])
  }

  function NonceFor(t: Tables, q: Request): nat
  {
    if q.deployment in t.nextNonces && t.nextNonces[q.deployment] > q.pendingNonce then t.nextNonces[q.deployment] else q.pendingNonce
  }

  function ClaimsAfter(t: Tables, q: Request): Result<map<ClaimKey, Text>, ReserveError>
  {
    if q.successor.Some? then ClaimedFor(t, q.intentId, q.successor.value) else Ok(t.claims)
  }

  /** What the scope owes once every older row of it is counted, without this request. */
  function ReservedBefore(t: Tables, q: Request, decode: Decoder): nat
    requires q.policy.scope in t.budgets
  {
    t.budgets[q.policy.scope] + LegacyTotal(t.attempts, q.policy.scope, decode)
  }

  /** Everything a successful new reservation writes. */
  function Booked(t: Tables, q: Request, decode: Decoder, claims: map<ClaimKey, Text>, bytes: SignedBytes): Tables
    requires q.policy.scope in t.budgets
  {
    var nonce := NonceFor(t, q);
    Tables(t.budgets[q.policy.scope := ReservedBefore(t, q, decode) + q.policy.reservationWei],
           Tagged(t.attempts, q.policy.scope, decode) +
           [Attempt(q.intentId, bytes, nonce, Some(Liability(q.policy.scope, q.policy.reservationWei)))],
           claims,
           t.nextNonces[q.deployment := nonce + 1])
  }

  /** A first reservation for an intent. */
  function NewlyReserved(t: Tables, q: Request, decode: Decoder): Result<Tables, ReserveError>
    requires q.policy.scope in t.budgets
  {
    match ClaimsAfter(t, q)
    case Err(e) => Err(e)
    case Ok(claims) =>
      if !AllVerifiable(t.attempts, decode) then Err(UnverifiableLegacy)
      else if ReservedBefore(t, q, decode) + q.policy.reservationWei > q.policy.maxWei then Err(OverBudget)
      else
        match q.build(NonceFor(t, q))
        case None => Err(BuildFailed)
        case Some(bytes) => Ok(Booked(t, q, decode, claims, bytes))
  }

  /** An intent that already has signed bytes gets them back and books nothing. */
  function Reserved(t: Tables, q: Request, decode: Decoder): Result<Tables, ReserveError>
  {
    if !PositiveBudget(q.policy.maxWei) || !PositiveBudget(q.policy.reservationWei) then Err(BadPolicy)
    else
      var started := WithBudgetRow(t, q.policy.scope);
      if Signed(t.attempts, q.intentId) then Ok(started) else NewlyReserved(started, q, decode)
  }
}
