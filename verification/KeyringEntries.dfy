/**
  The keyring's entries: rotation marks the old encryption keys and appends the new
  one, and the first active encryption key is the one in use.
 */
module KeyringEntries {
  import opened Text

  type Bytes = seq<bv8>
  type Time = int

  datatype Purpose = Encryption | Signing

  datatype Status = Unset | Active | Rotated | Revoked

  /** A fingerprint stands for the hash of the public key, taken to be free of collisions. */
  datatype KeyId = NoId | Named(id: string) | Fingerprint(publicKey: Bytes)

  datatype Entry = Entry(
    keyId: KeyId,
    algorithm: string,
    purpose: Purpose,
    publicKey: Bytes,
    privateKey: Bytes,
    created: Option<Time>,
    validFrom: Option<Time>,
    status: Status)

  function Normalized(e: Entry, now: Time): Entry {
    e.(keyId := if e.keyId.NoId? then Fingerprint(e.publicKey) else e.keyId,
       created := if e.created.None? then Some(now) else e.created,
       validFrom := if e.validFrom.None? then Some(now) else e.validFrom,
       status := if e.status.Unset? then Active else e.status)
  }

  predicate InUse(e: Entry) {
    e.purpose.Encryption? && e.status.Active?
  }

  /** The first active encryption entry, as an index. */
  function FirstInUse(es: seq<Entry>): (i: nat)
    ensures i <= |es| && (i < |es| ==> InUse(es[i])) && forall j | 0 <= j < i :: !InUse(es[j])
  {
    if es == [] || InUse(es[0]) then 0 else 1 + FirstInUse(es[1..])
  }

  function Rotated1(e: Entry): Entry {
    if InUse(e) then e.(status := Rotated) else e
  }

  function AfterRotation(es: seq<Entry>, e: Entry, now: Time): seq<Entry> {
    seq(|es|, i requires 0 <= i < |es| => Rotated1(es[i])) + [Normalized(e, now).(status := Active)]
  }

  /** An entry as it was handed in, with nothing that was set changed and nothing left unset. */
  predicate Completes(e: Entry, given: Entry, now: Time) {
    && e.publicKey == given.publicKey && e.privateKey == given.privateKey
    && e.algorithm == given.algorithm && e.purpose == given.purpose
    && !e.keyId.NoId? && (given.keyId != e.keyId ==> given.keyId.NoId? && e.keyId == Fingerprint(given.publicKey))
    && e.created.Some? && (given.created != e.created ==> given.created.None? && e.created.value == now)
    && e.validFrom.Some? && (given.validFrom != e.validFrom ==> given.validFrom.None? && e.validFrom.value == now)
  }

  /** Filling in the defaults keeps the keys and everything that was set. */
  lemma NormalizedCompletes(e: Entry, now: Time)
    ensures Completes(Normalized(e, now), e, now)
    ensures Normalized(e, now).status == if e.status.Unset? then Active else e.status
    ensures Normalized(Normalized(e, now), now) == Normalized(e, now)
  {
  }

  /**
    After a rotation no older key is in use, nothing but a status has changed, and
    the new key is the one in use exactly when it is an encryption key: handed a
    signing key, rotation leaves no encryption key in use at all.
   */
  lemma RotationUsesNewIff(es: seq<Entry>, e: Entry, now: Time)
    ensures var after := AfterRotation(es, e, now);
      && |after| == |es| + 1
      && Completes(after[|es|], e, now) && after[|es|].status.Active?
      && (forall i | 0 <= i < |es| :: !InUse(after[i]) && after[i] == es[i].(status := after[i].status))
      && (forall i | 0 <= i < |es| && InUse(es[i]) :: after[i].status.Rotated?)
      && (forall i | 0 <= i < |es| && !InUse(es[i]) :: after[i] == es[i])
      && (FirstInUse(after) == |es| <==> e.purpose.Encryption?)
      && (FirstInUse(after) == |after| <==> e.purpose.Signing?)
  {
    var after := AfterRotation(es, e, now);
    assert forall i | 0 <= i < |es| :: after[i] == Rotated1(es[i]);
    assert after[|es|].status.Active? && after[|es|].purpose == e.purpose;
    assert FirstInUse(after) >= |es|;
  }

  /** Appending an entry never changes which key is in use, unless there was none. */
  lemma AppendKeepsInUse(es: seq<Entry>, e: Entry)
    ensures FirstInUse(es) < |es| ==> FirstInUse(es + [e]) == FirstInUse(es)
    ensures FirstInUse(es) == |es| ==> (FirstInUse(es + [e]) == |es| <==> InUse(e))
  {
    var i, j := FirstInUse(es), FirstInUse(es + [e]);
    assert forall k | 0 <= k < |es| :: (es + [e])[k] == es[k];
    assert i < |es| ==> InUse((es + [e])[i]);
    assert (es + [e])[|es|] == e;
  }

  class Keyring {
    var entries: seq<Entry>

    constructor (entries: seq<Entry>)
      ensures this.entries == entries
    {
      this.entries := entries;
    }

    method ActiveEncryptionKey() returns (e: Option<Entry>)
      ensures e.None? <==> FirstInUse(entries) == |entries|
      ensures e.Some? ==> e.value == entries[FirstInUse(entries)]
    {
      for i := 0 to |entries|
        invariant forall j | 0 <= j < i :: !InUse(entries[j])
      {
        if entries[i].purpose.Encryption? && entries[i].status.Active? {
          return Some(entries[i]);
        }
      }
      return None;
    }

    method RotateEncryptionKey(e: Entry, now: Time)
      modifies this
      ensures entries == AfterRotation(old(entries), e, now)
    {
      for i := 0 to |entries|
        invariant |entries| == |old(entries)|
        invariant forall j | 0 <= j < i :: entries[j] == Rotated1(old(entries)[j])
        invariant forall j | i <= j < |entries| :: entries[j] == old(entries)[j]
      {
        if entries[i].purpose.Encryption? && entries[i].status.Active? {
          entries := entries[i := entries[i].(status := Rotated)];
        }
      }
      entries := entries + [Normalized(e, now).(status := Active)];
    }
  }
}
