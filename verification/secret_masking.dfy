/** Secrets in a device's management policy: masked in every answer, and put back when a policy comes
    in that still carries the mask. */
module SecretMasking {
  import opened Prelude

  type Options = map<string, string>

  const SECRET_KEYS: seq<string> := [
    "nemo-permanent-password", "default-connect-password", "proxy-password",
    "preset-address-book-password", "nemo-knock-key", "nemo-knock-hmac-key"]

  const MASK := "<managed-secret>"

  predicate IsSecret(key: string) {
    key in SECRET_KEYS
  }

  function MaskedValue(value: string): string {
    if value == [] then value else MASK
  }

  /** Non-empty secrets replaced, among the first n secret keys. */
  function MaskedUpTo(options: Options, n: nat): Options
    requires n <= |SECRET_KEYS|
  {
    map k | k in options :: if k in SECRET_KEYS[..n] then MaskedValue(options[k]) else options[k]
  }

  function Masked(options: Options): Options {
    map k | k in options :: if IsSecret(k) then MaskedValue(options[k]) else options[k]
  }

  /** The value a saved policy ends up with for a key: what was sent, but for a secret sent as the mask,
      which stands for the stored value, or for its absence. */
  function StoredFor(sent: Options, current: Options, key: string): Option<string> {
    if key in sent && !(IsSecret(key) && sent[key] == MASK) then Some(sent[key])
    else if key in sent && key in current then Some(current[key])
    else None
  }

  predicate IsRestored(sent: Options, current: Options, r: Options) {
    && (forall k <- r :: StoredFor(sent, current, k) == Some(r[k]))
    && (forall k <- sent :: StoredFor(sent, current, k).Some? ==> k in r)
  }

  method MaskSecretPolicy(options: Options) returns (r: Options)
    ensures r == Masked(options)
    ensures r.Keys == options.Keys
    ensures forall k <- options :: r[k] == if k in SECRET_KEYS && options[k] != [] then MASK else options[k]
  {
    r := options;
    for i := 0 to |SECRET_KEYS|
      invariant r == MaskedUpTo(options, i)
    {
      var key := SECRET_KEYS[i];
      if key in r && r[key] != [] { r := r[key := MASK]; }
      assert SECRET_KEYS[..i + 1] == SECRET_KEYS[..i] + [key];
    }
    assert SECRET_KEYS[..|SECRET_KEYS|] == SECRET_KEYS;
  }

  method RestoreMaskedSecrets(sent: Options, current: Options) returns (r: Options)
    ensures IsRestored(sent, current, r)
    ensures forall k <- sent :: !(k in SECRET_KEYS && sent[k] == MASK) ==> k in r && r[k] == sent[k]
    ensures forall k <- sent :: k in SECRET_KEYS && sent[k] == MASK ==> (k in r <==> k in current) && (k in r ==> r[k] == current[k])
  {
    r := sent;
    for i := 0 to |SECRET_KEYS|
      invariant forall k <- r :: k in sent
      invariant forall k <- sent :: k in SECRET_KEYS[..i] && sent[k] == MASK ==>
                                      (k in r <==> k in current) && (k in r ==> r[k] == current[k])
      invariant forall k <- sent :: !(k in SECRET_KEYS[..i] && sent[k] == MASK) ==> k in r && r[k] == sent[k]
    {
      var key := SECRET_KEYS[i];
      SecretKeysDistinct(i);
      if key in r && r[key] == MASK {
        if key in current { r := r[key := current[key]]; } else { r := r - {key}; }
      }
      assert SECRET_KEYS[..i + 1] == SECRET_KEYS[..i] + [key];
    }
    assert SECRET_KEYS[..|SECRET_KEYS|] == SECRET_KEYS;
  }

  lemma SecretKeysDistinct(i: nat)
    requires i < |SECRET_KEYS|
    ensures SECRET_KEYS[i] !in SECRET_KEYS[..i]
  {}

  /** A masked policy shows no secret: whatever is stored under a secret key, the answer holds only the
      mask or nothing there, so two policies that differ in such secrets alone look alike. */
  lemma MaskHidesSecrets(a: Options, b: Options)
    requires a.Keys == b.Keys
    requires forall k <- a :: if IsSecret(k) then a[k] == [] <==> b[k] == [] else a[k] == b[k]
    ensures Masked(a) == Masked(b)
  {}

  /** A policy sent back as it was shown is saved as it was stored: masking loses nothing. */
  lemma MaskRoundTrip(stored: Options, r: Options)
    requires IsRestored(Masked(stored), stored, r)
    ensures r == stored
  {}

  /** An edit made on the shown policy is saved exactly as made, and every other value as stored, if and
      only if the edit does not set a secret to the mask's own text over another stored value. */
  lemma EditIsSavedIff(stored: Options, key: string, value: string, r: Options)
    requires IsRestored(Masked(stored)[key := value], stored, r)
    ensures r == stored[key := value] <==>
            !(IsSecret(key) && value == MASK && !(key in stored && stored[key] == MASK))
  {}
}
