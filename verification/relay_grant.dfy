/** The relay session grant: what hbbs signs for a session it brokered and hbbr admits. A
    signature is ideal: a grant is signed exactly when hbbs minted it. */
module RelayGrant {
  const RELAY_GRANT_TTL_SECS: nat := 60

  /** A fresh nonce and an expiry time, signed together with the server key. */
  datatype Grant = Grant(nonce: nat, exp: nat)

  /** hbbr's check on a grant whose signature has been looked up. */
  predicate Verify(g: Grant, signed: bool, now: nat) {
    signed && now < g.exp
  }
}
