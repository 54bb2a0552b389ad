/**
  The sealed keyring with ideal cryptography: a ciphertext opens for exactly the key
  and the associated data it was sealed with.
 */
module SealedKeyring {
  import opened Text
  import opened KeyringEntries

  type Kek = nat

  const FORMAT_VERSION: nat := 1
  const UINT64: nat := 0x1_0000_0000_0000_0000

  datatype Result<T> = Ok(value: T) | InvalidFormat | DecryptFailed

  /** What is bound to the document: a format byte and a 64-bit document version. */
  datatype Aad = Aad(version: nat, docVersion: nat)

  function SealAad(version: nat, docVersion: nat): Aad {
    Aad(version % 256, docVersion % UINT64)
  }

  datatype Blob = Blob(kek: Kek, aad: Aad, entries: seq<Entry>)

  /** The wrap key of a passphrase slot: a password and a salt, stretched. */
  datatype WrapKey = WrapKey(password: string, salt: nat)

  datatype Wrapped = Wrapped(key: WrapKey, slotId: string, kek: Kek)

  /** A private key is known by the public key it belongs to. */
  datatype Private = Private(publicKey: nat)

  datatype Boxed = Boxed(publicKey: nat, kek: Kek)

  datatype Slot =
    | Passphrase(id: string, salt: nat, wrapped: Wrapped)
    | Escrow(id: string, boxed: Boxed)

  datatype Sealed = Sealed(version: nat, docVersion: nat, blob: Option<Blob>, slots: seq<Slot>)

  // ------------------------------------------------------------ ideal primitives

  function OpenBlob(blob: Blob, kek: Kek, version: nat, docVersion: nat): Result<seq<Entry>> {
    if blob.kek == kek && blob.aad == SealAad(version, docVersion) then Ok(blob.entries) else DecryptFailed
  }

  function Unwrap(w: Wrapped, key: WrapKey, slotId: string): Option<Kek> {
    if w.key == key && w.slotId == slotId then Some(w.kek) else None
  }

  function OpenAnonymous(b: Boxed, publicKey: nat, priv: Private): Option<Kek> {
    if b.publicKey == publicKey && priv.publicKey == publicKey then Some(b.kek) else None
  }

  // -------------------------------------------------------------- operations

  datatype Opened = Opened(entries: seq<Entry>, kek: Kek)

  predicate Parses(s: Sealed) {
    s.version != 0 && s.blob.Some?
  }

  /** The first passphrase slot that the password unwraps, as an index. */
  function FirstUnwrapped(slots: seq<Slot>, password: string): (i: nat)
    ensures i <= |slots| && (i < |slots| ==> SlotKek(slots[i], password).Some?)
    ensures forall j | 0 <= j < i :: SlotKek(slots[j], password).None?
  {
    if slots == [] || SlotKek(slots[0], password).Some? then 0 else 1 + FirstUnwrapped(slots[1..], password)
  }

  function SlotKek(slot: Slot, password: string): Option<Kek> {
    if slot.Passphrase? then Unwrap(slot.wrapped, WrapKey(password, slot.salt), slot.id) else None
  }

  predicate HasPassphrase(slots: seq<Slot>) {
    exists i :: 0 <= i < |slots| && slots[i].Passphrase?
  }

  function Unseal(s: Sealed, password: string): Result<Opened> {
    if !Parses(s) then InvalidFormat
    else
      var i := FirstUnwrapped(s.slots, password);
      if i < |s.slots| then
        var kek := SlotKek(s.slots[i], password).value;
        match OpenBlob(s.blob.value, kek, s.version, s.docVersion)
        case Ok(entries) => Ok(Opened(entries, kek))
        case InvalidFormat => InvalidFormat
        case DecryptFailed => DecryptFailed
      else if HasPassphrase(s.slots) then DecryptFailed
      else InvalidFormat
  }

  method UnsealWithPassword(s: Sealed, password: string) returns (r: Result<Opened>)
    ensures r == Unseal(s, password)
  {
    if s.version == 0 || s.blob.None? {
      return InvalidFormat;
    }
    var sawSlot := false;
    for i := 0 to |s.slots|
      invariant sawSlot <==> exists j :: 0 <= j < i && s.slots[j].Passphrase?
      invariant forall j | 0 <= j < i :: SlotKek(s.slots[j], password).None?
    {
      var slot := s.slots[i];
      if slot.Passphrase? {
        sawSlot := true;
        var kek := Unwrap(slot.wrapped, WrapKey(password, slot.salt), slot.id);
        if kek.Some? {
          assert FirstUnwrapped(s.slots, password) == i;
          var doc := OpenBlob(s.blob.value, kek.value, s.version, s.docVersion);
          if doc.Ok? {
            return Ok(Opened(doc.value, kek.value));
          }
          return DecryptFailed;
        }
      }
    }
    if !sawSlot {
      return InvalidFormat;
    }
    return DecryptFailed;
  }

  function NewPassphraseSlot(kek: Kek, password: string, salt: nat): Slot {
    Passphrase("primary", salt, Wrapped(WrapKey(password, salt), "primary", kek))
  }

  function Create(e: Entry, password: string, kek: Kek, salt: nat, now: Time): Sealed {
    Sealed(FORMAT_VERSION, 1, Some(Blob(kek, SealAad(FORMAT_VERSION, 1), [Normalized(e, now)])),
           [NewPassphraseSlot(kek, password, salt)])
  }

  function WithoutPassphrase(slots: seq<Slot>): seq<Slot> {
    if slots == [] then []
    else
      var front, last := WithoutPassphrase(slots[..|slots| - 1]), slots[|slots| - 1];
      if last.Passphrase? then front else front + [last]
  }

  method ReplaceInto(slot: Slot, slots: seq<Slot>) returns (out: seq<Slot>)
    ensures out == [slot] + WithoutPassphrase(slots)
  {
    out := [slot];
    for i := 0 to |slots|
      invariant out == [slot] + WithoutPassphrase(slots[..i])
    {
      assert slots[..i + 1][..i] == slots[..i];
      if !slots[i].Passphrase? {
        out := out + [slots[i]];
      }
    }
    assert slots[..|slots|] == slots;
  }

  function Rekey(s: Sealed, password: string, newPassword: string, salt: nat): Result<Sealed> {
    match Unseal(s, password)
    case Ok(o) => Ok(s.(slots := [NewPassphraseSlot(o.kek, newPassword, salt)] + WithoutPassphrase(s.slots)))
    case InvalidFormat => InvalidFormat
    case DecryptFailed => DecryptFailed
  }

  function Reseal(s: Sealed, entries: seq<Entry>, kek: Kek): Sealed {
    var next := (s.docVersion + 1) % UINT64;
    s.(docVersion := next, blob := Some(Blob(kek, SealAad(FORMAT_VERSION, next), entries)))
  }

  function AddEntry(s: Sealed, password: string, e: Entry, now: Time): Result<Sealed> {
    match Unseal(s, password)
    case Ok(o) => Ok(Reseal(s, o.entries + [Normalized(e, now)], o.kek))
    case InvalidFormat => InvalidFormat
    case DecryptFailed => DecryptFailed
  }

  function WithoutDomain(slots: seq<Slot>, domain: string): seq<Slot> {
    if slots == [] then []
    else
      var front, last := WithoutDomain(slots[..|slots| - 1], domain), slots[|slots| - 1];
      if last.Escrow? && last.id == domain then front else front + [last]
  }

  function AddEscrow(s: Sealed, password: string, publicKey: nat, domain: string): Result<Sealed> {
    match Unseal(s, password)
    case Ok(o) => Ok(s.(slots := WithoutDomain(s.slots, domain) + [Escrow(domain, Boxed(publicKey, o.kek))]))
    case InvalidFormat => InvalidFormat
    case DecryptFailed => DecryptFailed
  }

  method AddEscrowSlot(s: Sealed, password: string, publicKey: nat, domain: string) returns (r: Result<Sealed>)
    ensures r == AddEscrow(s, password, publicKey, domain)
  {
    var o := UnsealWithPassword(s, password);
    if o.InvalidFormat? {
      return InvalidFormat;
    }
    if o.DecryptFailed? {
      return DecryptFailed;
    }
    var out := [];
    for i := 0 to |s.slots|
      invariant out == WithoutDomain(s.slots[..i], domain)
    {
      assert s.slots[..i + 1][..i] == s.slots[..i];
      if !(s.slots[i].Escrow? && s.slots[i].id == domain) {
        out := out + [s.slots[i]];
      }
    }
    assert s.slots[..|s.slots|] == s.slots;
    return Ok(s.(slots := out + [Escrow(domain, Boxed(publicKey, o.value.kek))]));
  }

  function EscrowKek(slot: Slot, publicKey: nat, priv: Private): Option<Kek> {
    if slot.Escrow? then OpenAnonymous(slot.boxed, publicKey, priv) else None
  }

  function FirstEscrow(slots: seq<Slot>, publicKey: nat, priv: Private): (i: nat)
    ensures i <= |slots| && (i < |slots| ==> EscrowKek(slots[i], publicKey, priv).Some?)
    ensures forall j | 0 <= j < i :: EscrowKek(slots[j], publicKey, priv).None?
  {
    if slots == [] || EscrowKek(slots[0], publicKey, priv).Some? then 0 else 1 + FirstEscrow(slots[1..], publicKey, priv)
  }

  function EscrowOpened(s: Sealed, publicKey: nat, priv: Private): Result<seq<Entry>> {
    if !Parses(s) then InvalidFormat
    else
      var i := FirstEscrow(s.slots, publicKey, priv);
      if i < |s.slots| then
        OpenBlob(s.blob.value, EscrowKek(s.slots[i], publicKey, priv).value, s.version, s.docVersion)
      else DecryptFailed
  }

  method OpenWithEscrow(s: Sealed, publicKey: nat, priv: Private) returns (r: Result<seq<Entry>>)
    ensures r == EscrowOpened(s, publicKey, priv)
  {
    if s.version == 0 || s.blob.None? {
      return InvalidFormat;
    }
    for i := 0 to |s.slots|
      invariant forall j | 0 <= j < i :: EscrowKek(s.slots[j], publicKey, priv).None?
    {
      if s.slots[i].Escrow? {
        var kek := OpenAnonymous(s.slots[i].boxed, publicKey, priv);
        if kek.Some? {
          assert FirstEscrow(s.slots, publicKey, priv) == i;
          return OpenBlob(s.blob.value, kek.value, s.version, s.docVersion);
        }
      }
    }
    return DecryptFailed;
  }

  /**
    Of any sealed value, well made or not: it is malformed for a password exactly when
    it has no version, no document or no passphrase slot, and for an escrow key exactly
    when it has no version or no document. Whatever it opens to is the document, by a
    slot that wraps the document's key for just this password or this escrow key.
   */
  lemma OpensIff(s: Sealed, p: string, publicKey: nat, priv: Private)
    ensures Unseal(s, p).InvalidFormat? <==>
      s.version == 0 || s.blob.None? || forall i | 0 <= i < |s.slots| :: s.slots[i].Escrow?
    ensures EscrowOpened(s, publicKey, priv).InvalidFormat? <==> s.version == 0 || s.blob.None?
    ensures Unseal(s, p).Ok? ==> exists i ::
      && 0 <= i < |s.slots| && s.slots[i].Passphrase?
      && s.slots[i].wrapped == Wrapped(WrapKey(p, s.slots[i].salt), s.slots[i].id, s.blob.value.kek)
      && Unseal(s, p).value == Opened(s.blob.value.entries, s.blob.value.kek)
    ensures EscrowOpened(s, publicKey, priv).Ok? ==>
      && priv.publicKey == publicKey && EscrowOpened(s, publicKey, priv).value == s.blob.value.entries
      && exists i :: 0 <= i < |s.slots| && s.slots[i].Escrow? && s.slots[i].boxed == Boxed(publicKey, s.blob.value.kek)
  {
  }

  // -------------------------------------------------------------------- runs

  datatype Op =
    | RekeyOp(password: string, newPassword: string, salt: nat)
    | AddEntryOp(password: string, entry: Entry, now: Time)
    | AddEscrowOp(password: string, publicKey: nat, domain: string)

  /** What the sealed value is replaced by; an operation that fails replaces nothing. */
  function Apply(s: Sealed, op: Op): Sealed {
    var r := match op
      case RekeyOp(p, q, salt) => Rekey(s, p, q, salt)
      case AddEntryOp(p, e, now) => AddEntry(s, p, e, now)
      case AddEscrowOp(p, pub, domain) => AddEscrow(s, p, pub, domain);
    if r.Ok? then r.value else s
  }

  function Run(s: Sealed, ops: seq<Op>): Sealed
    decreases |ops|
  {
    if ops == [] then s else Run(Apply(s, ops[0]), ops[1..])
  }

  /**
    What a keyring is meant to hold, without any cryptography: the password, the
    entries in the order they were added, how many were added after the first, and
    the escrow keys by domain.
   */
  datatype Meant = Meant(password: string, entries: seq<Entry>, added: nat, escrow: map<string, nat>)

  /** An operation with the wrong password changes nothing. */
  function ApplyMeant(m: Meant, op: Op): Meant {
    if op.password != m.password then m
    else match op
      case RekeyOp(p, q, salt) => m.(password := q)
      case AddEntryOp(p, e, now) => m.(entries := m.entries + [Normalized(e, now)], added := m.added + 1)
      case AddEscrowOp(p, pub, domain) => m.(escrow := m.escrow[domain := pub])
  }

  function RunMeant(m: Meant, ops: seq<Op>): Meant
    decreases |ops|
  {
    if ops == [] then m else RunMeant(ApplyMeant(m, ops[0]), ops[1..])
  }

  /** The slots after the first are the escrow slots, one for each domain in the table. */
  ghost predicate EscrowSlots(slots: seq<Slot>, kek: Kek, escrow: map<string, nat>) {
    && (forall i | 0 <= i < |slots| ::
          slots[i].Escrow? && slots[i].id in escrow && slots[i].boxed == Boxed(escrow[slots[i].id], kek))
    && (forall d | d in escrow :: exists i :: 0 <= i < |slots| && slots[i].id == d)
  }

  ghost predicate Holds(s: Sealed, kek: Kek, m: Meant) {
    && s.version == FORMAT_VERSION && s.docVersion == (1 + m.added) % UINT64
    && s.blob == Some(Blob(kek, SealAad(FORMAT_VERSION, s.docVersion), m.entries))
    && s.slots != []
    && s.slots[0].Passphrase? && s.slots[0] == NewPassphraseSlot(kek, m.password, s.slots[0].salt)
    && EscrowSlots(s.slots[1..], kek, m.escrow)
  }

  lemma HoldsUnseals(s: Sealed, kek: Kek, m: Meant, password: string)
    requires Holds(s, kek, m)
    ensures Unseal(s, password) == if password == m.password then Ok(Opened(m.entries, kek)) else DecryptFailed
  {
    assert forall i | 1 <= i < |s.slots| :: s.slots[i] == s.slots[1..][i - 1];
    assert s.slots[0].Passphrase?;
  }

  lemma HoldsEscrow(s: Sealed, kek: Kek, m: Meant, publicKey: nat, priv: Private)
    requires Holds(s, kek, m)
    ensures EscrowOpened(s, publicKey, priv) ==
      if priv.publicKey == publicKey && publicKey in m.escrow.Values then Ok(m.entries) else DecryptFailed
  {
    var rest := s.slots[1..];
    assert forall i | 1 <= i < |s.slots| :: s.slots[i] == rest[i - 1];
    if publicKey in m.escrow.Values {
      var d :| d in m.escrow && m.escrow[d] == publicKey;
      var i :| 0 <= i < |rest| && rest[i].id == d;
      assert s.slots[i + 1] == rest[i];
    }
  }

  // ------------------------------------------------------------------ slot tables

  predicate AllEscrow(slots: seq<Slot>) {
    forall i | 0 <= i < |slots| :: slots[i].Escrow?
  }

  lemma {:induction false} OnlyFirstIsPassphrase(slots: seq<Slot>)
    requires slots != [] && slots[0].Passphrase? && AllEscrow(slots[1..])
    ensures WithoutPassphrase(slots) == slots[1..]
    decreases |slots|
  {
    var front := slots[..|slots| - 1];
    if |slots| == 1 {
      assert front == [] && slots[1..] == [];
    } else {
      assert front[1..] == slots[1..][..|slots| - 2];
      OnlyFirstIsPassphrase(front);
      assert slots[|slots| - 1] == slots[1..][|slots| - 2];
      assert slots[1..] == front[1..] + [slots[|slots| - 1]];
    }
  }

  lemma {:induction false} FirstIsKept(slots: seq<Slot>, domain: string)
    requires slots != [] && slots[0].Passphrase?
    ensures WithoutDomain(slots, domain) == [slots[0]] + WithoutDomain(slots[1..], domain)
    decreases |slots|
  {
    var front := slots[..|slots| - 1];
    if |slots| == 1 {
      assert front == [] && slots[1..] == [];
    } else {
      FirstIsKept(front, domain);
      assert front[1..] == slots[1..][..|slots| - 2];
      assert slots[1..][|slots[1..]| - 1] == slots[|slots| - 1];
    }
  }

  lemma {:induction false} WithoutDomainKeeps(slots: seq<Slot>, domain: string, x: Slot)
    ensures x in WithoutDomain(slots, domain) <==> x in slots && !(x.Escrow? && x.id == domain)
    decreases |slots|
  {
    if slots != [] {
      WithoutDomainKeeps(slots[..|slots| - 1], domain, x);
      assert slots == slots[..|slots| - 1] + [slots[|slots| - 1]];
    }
  }

  /** An added escrow slot takes the place of its domain's older one and of no other. */
  lemma EscrowIsAdded(slots: seq<Slot>, kek: Kek, escrow: map<string, nat>, domain: string, publicKey: nat)
    requires EscrowSlots(slots, kek, escrow)
    ensures EscrowSlots(WithoutDomain(slots, domain) + [Escrow(domain, Boxed(publicKey, kek))], kek, escrow[domain := publicKey])
  {
    var kept, table := WithoutDomain(slots, domain), escrow[domain := publicKey];
    var out := kept + [Escrow(domain, Boxed(publicKey, kek))];
    forall i | 0 <= i < |out| ensures out[i].Escrow? && out[i].id in table && out[i].boxed == Boxed(table[out[i].id], kek) {
      if i < |kept| {
        WithoutDomainKeeps(slots, domain, kept[i]);
        assert kept[i] in slots && out[i] == kept[i];
      }
    }
    forall d | d in table ensures exists i :: 0 <= i < |out| && out[i].id == d {
      if d == domain {
        assert out[|kept|].id == d;
      } else {
        var i :| 0 <= i < |slots| && slots[i].id == d;
        WithoutDomainKeeps(slots, domain, slots[i]);
        var j :| 0 <= j < |kept| && kept[j] == slots[i];
        assert out[j].id == d;
      }
    }
  }

  // ------------------------------------------------------------------ over runs

  lemma RekeyHolds(s: Sealed, kek: Kek, m: Meant, newPassword: string, salt: nat)
    requires Holds(s, kek, m)
    ensures Holds(Apply(s, RekeyOp(m.password, newPassword, salt)), kek, m.(password := newPassword))
  {
    HoldsUnseals(s, kek, m, m.password);
    OnlyFirstIsPassphrase(s.slots);
    var slots := [NewPassphraseSlot(kek, newPassword, salt)] + s.slots[1..];
    assert slots[1..] == s.slots[1..];
  }

  lemma AddEntryHolds(s: Sealed, kek: Kek, m: Meant, e: Entry, now: Time)
    requires Holds(s, kek, m)
    ensures Holds(Apply(s, AddEntryOp(m.password, e, now)), kek, m.(entries := m.entries + [Normalized(e, now)], added := m.added + 1))
  {
    HoldsUnseals(s, kek, m, m.password);
    NextVersion(1 + m.added);
  }

  lemma NextVersion(n: nat)
    ensures (n % UINT64 + 1) % UINT64 == (n + 1) % UINT64
  {
  }

  lemma AddEscrowHolds(s: Sealed, kek: Kek, m: Meant, publicKey: nat, domain: string)
    requires Holds(s, kek, m)
    ensures Holds(Apply(s, AddEscrowOp(m.password, publicKey, domain)), kek, m.(escrow := m.escrow[domain := publicKey]))
  {
    HoldsUnseals(s, kek, m, m.password);
    FirstIsKept(s.slots, domain);
    EscrowIsAdded(s.slots[1..], kek, m.escrow, domain, publicKey);
    var slot := Escrow(domain, Boxed(publicKey, kek));
    var slots := [s.slots[0]] + WithoutDomain(s.slots[1..], domain) + [slot];
    assert slots[1..] == WithoutDomain(s.slots[1..], domain) + [slot];
  }

  lemma ApplyHolds(s: Sealed, kek: Kek, m: Meant, op: Op)
    requires Holds(s, kek, m)
    ensures Holds(Apply(s, op), kek, ApplyMeant(m, op))
  {
    if op.password != m.password {
      HoldsUnseals(s, kek, m, op.password);
    } else {
      match op {
        case RekeyOp(_, q, salt) => RekeyHolds(s, kek, m, q, salt);
        case AddEntryOp(_, e, now) => AddEntryHolds(s, kek, m, e, now);
        case AddEscrowOp(_, pub, domain) => AddEscrowHolds(s, kek, m, pub, domain);
      }
    }
  }

  lemma {:induction false} RunHolds(s: Sealed, kek: Kek, m: Meant, ops: seq<Op>)
    requires Holds(s, kek, m)
    ensures Holds(Run(s, ops), kek, RunMeant(m, ops))
    decreases |ops|
  {
    if ops != [] {
      ApplyHolds(s, kek, m, ops[0]);
      RunHolds(Apply(s, ops[0]), kek, ApplyMeant(m, ops[0]), ops[1..]);
    }
  }

  function Start(e: Entry, password: string, now: Time): Meant {
    Meant(password, [Normalized(e, now)], 0, map[])
  }

  lemma RunHoldsFromCreate(e: Entry, password: string, kek: Kek, salt: nat, now: Time, ops: seq<Op>)
    ensures Holds(Run(Create(e, password, kek, salt, now), ops), kek, RunMeant(Start(e, password, now), ops))
  {
    var s, m := Create(e, password, kek, salt, now), Start(e, password, now);
    assert s.slots[1..] == [];
    assert Holds(s, kek, m);
    RunHolds(s, kek, m, ops);
  }

  /**
    After any operations, with right or wrong passwords: the latest password opens
    the keyring and no other does; so does each escrow key in the table and no other;
    either way it holds every entry ever added, in order; and the document version
    is one more than the number of entries added.
   */
  lemma KeyringStaysOpenable(
    e: Entry, password: string, kek: Kek, salt: nat, now: Time, ops: seq<Op>, p: string, publicKey: nat, priv: Private)
    ensures var s := Run(Create(e, password, kek, salt, now), ops);
      var m := RunMeant(Start(e, password, now), ops);
      && Unseal(s, p) == (if p == m.password then Ok(Opened(m.entries, kek)) else DecryptFailed)
      && EscrowOpened(s, publicKey, priv) ==
           (if priv.publicKey == publicKey && publicKey in m.escrow.Values then Ok(m.entries) else DecryptFailed)
      && s.docVersion == (1 + m.added) % UINT64
  {
    var s, m := Create(e, password, kek, salt, now), Start(e, password, now);
    RunHoldsFromCreate(e, password, kek, salt, now, ops);
    HoldsUnseals(Run(s, ops), kek, RunMeant(m, ops), p);
    HoldsEscrow(Run(s, ops), kek, RunMeant(m, ops), publicKey, priv);
  }

  /** Entries are never dropped or reordered by later operations. */
  lemma {:induction false} EntriesOnlyGrow(m: Meant, ops: seq<Op>)
    ensures var t := RunMeant(m, ops);
      && |t.entries| == |m.entries| + (t.added - m.added) && t.added >= m.added
      && forall i | 0 <= i < |m.entries| :: t.entries[i] == m.entries[i]
    decreases |ops|
  {
    if ops != [] {
      EntriesOnlyGrow(ApplyMeant(m, ops[0]), ops[1..]);
    }
  }

  /**
    An older document put back under a newer envelope opens for nobody, as long as
    fewer than 2^64 entries lie between them.
   */
  lemma RollbackIsRefused(s: Sealed, kek: Kek, m: Meant, ops: seq<Op>, p: string, publicKey: nat, priv: Private)
    requires Holds(s, kek, m)
    requires m.added < RunMeant(m, ops).added < m.added + UINT64
    ensures var mixed := Run(s, ops).(blob := s.blob);
      !Unseal(mixed, p).Ok? && !EscrowOpened(mixed, publicKey, priv).Ok?
  {
    var t := Run(s, ops);
    RunHolds(s, kek, m, ops);
    DocumentsDiffer(s, m, t, RunMeant(m, ops), kek);
    WrongAadIsRefused(t, s.blob.value, p, publicKey, priv);
  }

  lemma WrongAadIsRefused(t: Sealed, blob: Blob, p: string, publicKey: nat, priv: Private)
    requires blob.aad != SealAad(t.version, t.docVersion)
    ensures !Unseal(t.(blob := Some(blob)), p).Ok? && !EscrowOpened(t.(blob := Some(blob)), publicKey, priv).Ok?
  {
  }

  lemma DocumentsDiffer(s: Sealed, m: Meant, t: Sealed, m': Meant, kek: Kek)
    requires Holds(s, kek, m) && Holds(t, kek, m') && m.added < m'.added < m.added + UINT64
    ensures s.blob.value.aad != SealAad(t.version, t.docVersion)
  {
    VersionsDiffer(1 + m.added, 1 + m'.added);
  }

  lemma VersionsDiffer(a: nat, b: nat)
    requires a < b < a + UINT64
    ensures (a % UINT64) % UINT64 != (b % UINT64) % UINT64
  {
    var q := a / UINT64;
    assert a == q * UINT64 + a % UINT64;
    assert b / UINT64 == q || b / UINT64 == q + 1;
  }

  function Renamed(s: Sealed, i: nat, id: string): Sealed
    requires i < |s.slots|
  {
    var slot := s.slots[i];
    s.(slots := s.slots[i := if slot.Passphrase? then Passphrase(id, slot.salt, slot.wrapped) else Escrow(id, slot.boxed)])
  }

  lemma RenamedPassphrase(s: Sealed, kek: Kek, m: Meant, id: string, p: string)
    requires Holds(s, kek, m)
    ensures Unseal(Renamed(s, 0, id), p)
         == if p == m.password && id == "primary" then Ok(Opened(m.entries, kek)) else DecryptFailed
  {
    var t := Renamed(s, 0, id);
    assert forall i | 1 <= i < |s.slots| :: t.slots[i] == s.slots[i] == s.slots[1..][i - 1];
    assert t.slots[0].Passphrase?;
  }

  /** For an escrow key every slot is what it was under its old name. */
  lemma RenamedForEscrow(s: Sealed, i: nat, id: string, publicKey: nat, priv: Private)
    requires i < |s.slots|
    ensures EscrowOpened(Renamed(s, i, id), publicKey, priv) == EscrowOpened(s, publicKey, priv)
  {
    var t := Renamed(s, i, id);
    assert forall j | 0 <= j < |s.slots| :: EscrowKek(t.slots[j], publicKey, priv) == EscrowKek(s.slots[j], publicKey, priv);
    assert FirstEscrow(t.slots, publicKey, priv) == FirstEscrow(s.slots, publicKey, priv);
  }

  /** For a password so is an escrow slot. */
  lemma RenamedEscrow(s: Sealed, i: nat, id: string, p: string)
    requires i < |s.slots| && s.slots[i].Escrow?
    ensures Unseal(Renamed(s, i, id), p) == Unseal(s, p)
  {
    var t := Renamed(s, i, id);
    assert forall j | 0 <= j < |s.slots| :: SlotKek(t.slots[j], p) == SlotKek(s.slots[j], p);
    assert forall j | 0 <= j < |s.slots| :: t.slots[j].Passphrase? == s.slots[j].Passphrase?;
    assert FirstUnwrapped(t.slots, p) == FirstUnwrapped(s.slots, p);
  }

  /**
    After any operations, the name of the passphrase slot is bound to the key it
    wraps: under another name no password opens the keyring. The name of an escrow
    slot is not: whatever slot is renamed, the escrow keys open what they opened.
   */
  lemma RenamingSlots(
    e: Entry, password: string, kek: Kek, salt: nat, now: Time, ops: seq<Op>, i: nat, id: string, p: string,
    publicKey: nat, priv: Private)
    requires i < |Run(Create(e, password, kek, salt, now), ops).slots|
    ensures var s := Run(Create(e, password, kek, salt, now), ops);
      var m := RunMeant(Start(e, password, now), ops);
      && (Unseal(Renamed(s, i, id), p).Ok? <==> p == m.password && (i == 0 ==> id == "primary"))
      && EscrowOpened(Renamed(s, i, id), publicKey, priv) == EscrowOpened(s, publicKey, priv)
  {
    var s, m := Run(Create(e, password, kek, salt, now), ops), RunMeant(Start(e, password, now), ops);
    RunHoldsFromCreate(e, password, kek, salt, now, ops);
    RenamedForEscrow(s, i, id, publicKey, priv);
    RenamedPassphrase(s, kek, m, id, p);
    HoldsUnseals(s, kek, m, p);
    if i > 0 {
      assert s.slots[i] == s.slots[1..][i - 1];
      RenamedEscrow(s, i, id, p);
    }
  }
}
