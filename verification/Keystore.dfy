/** Where the master key lives: one key, wrapped once for each way in, and operations that are
    several file writes with a stop allowed between any two.

    Sealing is ideal: a blob opens with the key it was sealed under and with no other, and keys
    derived from different secrets, salts or costs are different. Each whole-file write or removal
    is one step. */
module Keystore {
  import opened Wrappers

  datatype Result<T> = Ok(value: T) | Err

  type Key = nat

  /** What a locked vault hands back in place of a key. */
  const NO_KEY: Key := 0

  // ---- Keys that wrap the key ------------------------------------------------------------------

  datatype Costs = Costs(memory: nat, passes: nat, lanes: nat)

  datatype Kek =
    | OfKeyring(secret: nat)
    | OfPassphrase(text: string, salt: nat, costs: Costs)
    | OfPin(pin: string, salt: nat, costs: Costs)

  datatype Blob = Sealed(key: Key, under: Kek)

  function Wrap(master: Key, kek: Kek): Blob {
    Sealed(master, kek)
  }

  function Unwrap(blob: Blob, kek: Kek): Option<Key> {
    if blob.under == kek then Some(blob.key) else None
  }

  const PROFILE := Costs(64 * 1024, 3, 1)

  predicate Allowed(c: Costs) {
    c.memory <= 1024 * 1024 && c.passes <= 64 && c.lanes <= 16
  }

  predicate BelowProfile(c: Costs) {
    c.memory < PROFILE.memory || c.passes < PROFILE.passes
  }

  datatype Form = Verbatim | Words

  /** What was typed, what it is as a word phrase, and whether the app could have generated it. */
  datatype Typed = Typed(text: string, words: string, generated: bool)

  function Prepare(typed: Typed, form: Form): string {
    if form == Verbatim then typed.text else typed.words
  }

  function DetectForm(typed: Typed): Form {
    if typed.generated then Words else Verbatim
  }

  predicate Acceptable(typed: Typed, form: Form) {
    typed.text != "" && (form == Verbatim ==> |typed.text| >= 12)
  }

  predicate AcceptablePin(pin: string) {
    |pin| >= 6 && forall i | 0 <= i < |pin| :: '0' <= pin[i] <= '9'
  }

  datatype PassphraseWrapper = PassphraseWrapper(salt: nat, costs: Costs, blob: Blob, form: Form)

  datatype PinWrapper = PinWrapper(salt: nat, costs: Costs, blob: Blob, failures: nat)

  function PassphraseKek(typed: Typed, w: PassphraseWrapper): Option<Kek> {
    if Allowed(w.costs) then Some(OfPassphrase(Prepare(typed, w.form), w.salt, w.costs)) else None
  }

  function NewPassphraseWrapper(typed: Typed, master: Key, form: Form, salt: nat): PassphraseWrapper {
    PassphraseWrapper(salt, PROFILE, Wrap(master, OfPassphrase(Prepare(typed, form), salt, PROFILE)), form)
  }

  function NewPinWrapper(pin: string, master: Key, salt: nat): PinWrapper {
    PinWrapper(salt, PROFILE, Wrap(master, OfPin(pin, salt, PROFILE)), 0)
  }

  /** What a PIN comes to, when the phone's hardware answers. */
  function OpenPin(pin: string, w: PinWrapper, hardware: bool): Option<Key> {
    if hardware && Allowed(w.costs) then Unwrap(w.blob, OfPin(pin, w.salt, w.costs)) else None
  }

  // ---- The disk -----------------------------------------------------------------------------------

  datatype KeyStore = KeyStore(
    keyring: Option<Blob>,
    passphrase: Option<PassphraseWrapper>,
    alwaysAsk: bool,
    /** Opaque: only the phone's own key turns it back. */
    biometric: Option<nat>,
    pin: Option<PinWrapper>)

  const BLANK := KeyStore(None, None, false, None, None)

  /** `keystore.json` and `.secret`. */
  datatype Disk = Disk(keystore: Option<KeyStore>, secret: Option<Key>)

  function Loaded(d: Disk): KeyStore {
    if d.keystore.Some? then d.keystore.value else BLANK
  }

  function Put(d: Disk, store: KeyStore): Disk {
    d.(keystore := Some(store))
  }

  /** What the keyring says when asked; it may say something else the next time. */
  datatype Ring = Ready(secret: nat) | Locked | Missing | Unavailable

  datatype Unlocked = Unlocked(key: Key, needsPassphrase: bool)

  datatype Mode = SecretFile | PassphraseOnly | KeyringAndPassphrase

  datatype PinOutcome = Opened(key: Key) | Wrong(triesLeft: nat) | Disabled | NoPin

  predicate IsFirstRun(d: Disk) {
    d.secret == None && Loaded(d).keyring == None && Loaded(d).passphrase == None
  }

  // ---- What each operation writes, in order ------------------------------------------------------

  function Last(d: Disk, writes: seq<Disk>): Disk {
    if writes == [] then d else writes[|writes| - 1]
  }

  function UnlockSays(d: Disk, ring: Ring): Result<Unlocked> {
    var store := Loaded(d);
    var unsealed :=
      if store.keyring.Some? && ring.Ready? then Unwrap(store.keyring.value, OfKeyring(ring.secret)) else None;
    if unsealed.Some? && (d.secret == None || d.secret == unsealed) then Ok(Unlocked(unsealed.value, false))
    else if d.secret.Some? then Ok(Unlocked(d.secret.value, false))
    else if store.passphrase.Some? then Ok(Unlocked(NO_KEY, true))
    else Err
  }

  function StoreRingWrites(d: Disk, master: Key, ring: Ring): seq<Disk> {
    var store := Loaded(d);
    if store.alwaysAsk || !ring.Ready? then []
    else [Put(d, store.(keyring := Some(Wrap(master, OfKeyring(ring.secret)))))]
  }

  function SetPassphraseWrites(d: Disk, master: Key, typed: Typed, alwaysAsk: bool, form: Form, salt: nat,
      ring: Ring): seq<Disk> {
    if !Acceptable(typed, form) then []
    else
      var was := Loaded(d);
      var store := was.(passphrase := Some(NewPassphraseWrapper(typed, master, form, salt)), alwaysAsk := alwaysAsk,
                        keyring := if alwaysAsk then None else was.keyring);
      var d1 := Put(d, store);
      var ringed := if !alwaysAsk && store.keyring == None then StoreRingWrites(d1, master, ring) else [];
      var d2 := Last(d1, ringed);
      [d1] + ringed + (if d2.secret.Some? then [d2.(secret := None)] else [])
  }

  function SetAlwaysAskWrites(d: Disk, master: Key, alwaysAsk: bool, ring: Ring): seq<Disk> {
    var store := Loaded(d);
    if store.passphrase == None then []
    else
      var d1 := Put(d, store.(alwaysAsk := alwaysAsk, keyring := None));
      [d1] + (if alwaysAsk then [] else StoreRingWrites(d1, master, ring))
  }

  function ClearPassphraseWrites(d: Disk, master: Key, ring: Ring): seq<Disk> {
    var d1 := d.(secret := Some(master));
    var d2 := Put(d1, Loaded(d1).(passphrase := None, alwaysAsk := false, biometric := None, pin := None));
    [d1, d2] + StoreRingWrites(d2, master, ring)
  }

  /** The wrapper a typed passphrase is tried on, and the key it gives. */
  function PassphraseSays(d: Disk, typed: Typed): Result<Key> {
    var w := Loaded(d).passphrase;
    if w == None then Err
    else
      var kek := PassphraseKek(typed, w.value);
      if kek == None then Err
      else
        var key := Unwrap(w.value.blob, kek.value);
        if key == None then Err else Ok(key.value)
  }

  predicate ShouldRepair(status: Ring, alwaysAsk: bool, wrapperOpens: bool) {
    !alwaysAsk && !wrapperOpens && (status.Ready? || status.Missing?)
  }

  function UnlockWithPassphraseWrites(d: Disk, typed: Typed, salt: nat, status: Ring, ring: Ring): seq<Disk> {
    var says := PassphraseSays(d, typed);
    if says == Err then []
    else
      var store := Loaded(d);
      var w := store.passphrase.value;
      var upgraded := if BelowProfile(w.costs)
                      then
                        [Put(d, store.(passphrase := Some(NewPassphraseWrapper(typed, says.value, w.form, salt))))]
                      else [];
      var asked := if store.alwaysAsk then Missing else status;
      var opens := store.keyring.Some? && asked.Ready? && Unwrap(store.keyring.value, OfKeyring(asked.secret)).Some?;
      if ShouldRepair(asked, store.alwaysAsk, opens)
      then upgraded + StoreRingWrites(Last(d, upgraded), says.value, ring)
      else upgraded
  }

  function SetPinWrites(d: Disk, master: Key, pin: string, salt: nat, hardware: bool): seq<Disk> {
    if !AcceptablePin(pin) || Loaded(d).passphrase == None || !hardware then []
    else [Put(d, Loaded(d).(pin := Some(NewPinWrapper(pin, master, salt))))]
  }

  /** How a PIN attempt goes and what it writes. The hardware answers for the attempt, and again for
      a rewrapping under the current costs. */
  function PinAttempt(d: Disk, pin: string, salt: nat, hardware: bool, again: bool): (PinOutcome, seq<Disk>) {
    var store := Loaded(d);
    if store.pin == None then (NoPin, [])
    else
      var w := store.pin.value.(failures := store.pin.value.failures + 1);
      var d1 := Put(d, store.(pin := Some(w)));
      var unsealed := OpenPin(pin, w, hardware);
      if unsealed.Some? then
        var kept := if BelowProfile(w.costs) && again then NewPinWrapper(pin, unsealed.value, salt)
          else w.(failures := 0);
        (Opened(unsealed.value), [d1, Put(d1, store.(pin := Some(kept)))])
      else if w.failures >= 5 then (Disabled, [d1, Put(d1, store.(pin := None))])
      else (Wrong(5 - w.failures), [d1])
  }

  // ---- The operations -------------------------------------------------------------------------------

  class Vault {
    var keystore: Option<KeyStore>
    var secret: Option<Key>
    /** The disk after each write so far. */
    ghost var seen: seq<Disk>

    function Contents(): Disk
      reads this
    {
      Disk(keystore, secret)
    }

    constructor (d: Disk)
      ensures Contents() == d && seen == []
    {
      keystore, secret, seen := d.keystore, d.secret, [];
    }

    method LoadKeystore() returns (store: KeyStore)
      ensures store == Loaded(Contents())
    {
      store := if keystore.Some? then keystore.value else BLANK;
    }

    method SaveKeystore(store: KeyStore)
      modifies this
      ensures Contents() == Put(old(Contents()), store) && seen == old(seen) + [Contents()]
    {
      keystore := Some(store);
      seen := seen + [Contents()];
    }

    method WriteSecret(master: Key)
      modifies this
      ensures Contents() == old(Contents()).(secret := Some(master)) && seen == old(seen) + [Contents()]
    {
      secret := Some(master);
      seen := seen + [Contents()];
    }

    method RemoveSecret()
      modifies this
      ensures Contents() == old(Contents()).(secret := None) && seen == old(seen) + [Contents()]
    {
      secret := None;
      seen := seen + [Contents()];
    }

    method Unlock(ring: Ring) returns (r: Result<Unlocked>)
      ensures r == UnlockSays(Contents(), ring)
    {
      var store := LoadKeystore();
      if store.keyring.Some? && ring.Ready? {
        var unsealed := Unwrap(store.keyring.value, OfKeyring(ring.secret));
        if unsealed.Some? {
          if secret == None || secret.value == unsealed.value {
            return Ok(Unlocked(unsealed.value, false));
          }
        }
      }
      if secret.Some? {
        return Ok(Unlocked(secret.value, false));
      }
      if store.passphrase.Some? {
        return Ok(Unlocked(NO_KEY, true));
      }
      return Err;
    }

    method StoreKeyringWrapper(master: Key, ring: Ring) returns (stored: bool)
      modifies this
      ensures seen == old(seen) + StoreRingWrites(old(Contents()), master, ring)
      ensures Contents() == Last(old(Contents()), StoreRingWrites(old(Contents()), master, ring))
      ensures stored <==> !Loaded(old(Contents())).alwaysAsk && ring.Ready?
    {
      var store := LoadKeystore();
      if store.alwaysAsk {
        return false;
      }
      if !ring.Ready? {
        return false;
      }
      SaveKeystore(store.(keyring := Some(Wrap(master, OfKeyring(ring.secret)))));
      return true;
    }

    method SetPassphrase(master: Key, typed: Typed, alwaysAsk: bool, form: Form, salt: nat, ring: Ring)
      returns (r: Result<()>)
      modifies this
      ensures seen == old(seen) + SetPassphraseWrites(old(Contents()), master, typed, alwaysAsk, form, salt, ring)
      ensures Contents() == Last(old(Contents()),
        SetPassphraseWrites(old(Contents()), master, typed, alwaysAsk, form, salt, ring))
      ensures r.Ok? <==> Acceptable(typed, form)
      ensures r.Ok? ==> secret == None && PassphraseSays(Contents(), typed) == Ok(master)
    {
      if !Acceptable(typed, form) {
        return Err;
      }
      var wrapper := NewPassphraseWrapper(typed, master, form, salt);
      var store := LoadKeystore();
      store := store.(passphrase := Some(wrapper), alwaysAsk := alwaysAsk);
      if alwaysAsk {
        store := store.(keyring := None);
      }
      SaveKeystore(store);
      if !alwaysAsk && store.keyring == None {
        var _ := StoreKeyringWrapper(master, ring);
      }
      if secret.Some? {
        RemoveSecret();
      }
      return Ok(());
    }

    method SetAlwaysAsk(master: Key, alwaysAsk: bool, ring: Ring) returns (r: Result<()>)
      modifies this
      ensures seen == old(seen) + SetAlwaysAskWrites(old(Contents()), master, alwaysAsk, ring)
      ensures Contents() == Last(old(Contents()), SetAlwaysAskWrites(old(Contents()), master, alwaysAsk, ring))
      ensures r.Ok? <==> Loaded(old(Contents())).passphrase.Some?
      ensures r.Ok? ==> Loaded(Contents()).alwaysAsk == alwaysAsk
    {
      var store := LoadKeystore();
      if store.passphrase == None {
        return Err;
      }
      SaveKeystore(store.(alwaysAsk := alwaysAsk, keyring := None));
      if !alwaysAsk {
        var _ := StoreKeyringWrapper(master, ring);
      }
      return Ok(());
    }

    method ClearPassphrase(master: Key, ring: Ring)
      modifies this
      ensures seen == old(seen) + ClearPassphraseWrites(old(Contents()), master, ring)
      ensures Contents() == Last(old(Contents()), ClearPassphraseWrites(old(Contents()), master, ring))
      ensures secret == Some(master) && Loaded(Contents()).passphrase == None
    {
      WriteSecret(master);
      var store := LoadKeystore();
      SaveKeystore(store.(passphrase := None, alwaysAsk := false, biometric := None, pin := None));
      var _ := StoreKeyringWrapper(master, ring);
    }

    /** `status` is what the keyring says when the wrapper is tested, `ring` when it is rewritten. */
    method UnlockWithPassphrase(typed: Typed, salt: nat, status: Ring, ring: Ring) returns (r: Result<Key>)
      modifies this
      ensures r == PassphraseSays(old(Contents()), typed)
      ensures seen == old(seen) + UnlockWithPassphraseWrites(old(Contents()), typed, salt, status, ring)
      ensures Contents() == Last(old(Contents()),
        UnlockWithPassphraseWrites(old(Contents()), typed, salt, status, ring))
    {
      var store := LoadKeystore();
      if store.passphrase == None {
        return Err;
      }
      var wrapper := store.passphrase.value;
      var kek := PassphraseKek(typed, wrapper);
      if kek == None {
        return Err;
      }
      var master := Unwrap(wrapper.blob, kek.value);
      if master == None {
        return Err;
      }
      if BelowProfile(wrapper.costs) {
        var latest := LoadKeystore();
        SaveKeystore(latest.(passphrase := Some(NewPassphraseWrapper(typed, master.value, wrapper.form, salt))));
      }
      var asked := if store.alwaysAsk then Missing else status;
      var opens := store.keyring.Some? && asked.Ready? && Unwrap(store.keyring.value, OfKeyring(asked.secret)).Some?;
      if ShouldRepair(asked, store.alwaysAsk, opens) {
        var _ := StoreKeyringWrapper(master.value, ring);
      }
      return Ok(master.value);
    }

    /** The keyring is asked before the wrapper is made, and again at each step of reading it back. */
    method Initialize(mode: Mode, typed: Typed, master: Key, salt: nat, again: nat, first: Ring, second: Ring,
        third: Ring, fourth: Ring)
      returns (r: Result<Key>)
      requires IsFirstRun(Contents())
      modifies this
      ensures r.Ok? ==> r.value == master && Sound(master, Contents())
      ensures r.Ok? && mode == SecretFile ==> secret == Some(master)
      ensures r.Ok? && mode != SecretFile ==> secret == None && PassphraseSays(Contents(), typed) == Ok(master)
      ensures r.Ok? ==> (Loaded(Contents()).alwaysAsk <==> mode == PassphraseOnly)
      ensures r.Ok? && mode != SecretFile ==>
        Loaded(Contents()).passphrase.value.form == if typed.generated then Words else Verbatim
      ensures r.Ok? <==>
        && (mode != SecretFile ==> Acceptable(typed, DetectForm(typed)))
        && (mode == KeyringAndPassphrase ==> first.Ready?)
    {
      var needsPassphrase := mode != SecretFile;
      if needsPassphrase && typed.text == "" {
        return Err;
      }
      var form := DetectForm(typed);
      if needsPassphrase && !Acceptable(typed, form) {
        return Err;
      }
      var store := BLANK;
      if mode == KeyringAndPassphrase {
        if !first.Ready? {
          return Err;
        }
        store := store.(keyring := Some(Wrap(master, OfKeyring(first.secret))));
      }
      if needsPassphrase {
        var wrapper := NewPassphraseWrapper(typed, master, form, salt);
        store := store.(passphrase := Some(wrapper), alwaysAsk := mode == PassphraseOnly);
      }
      SaveKeystore(store);
      if mode == SecretFile {
        WriteSecret(master);
      }
      if needsPassphrase {
        var unsealed := UnlockWithPassphrase(typed, again, second, third);
        if unsealed == Err || unsealed.value != master {
          return Err;
        }
      }
      var reopened := Unlock(fourth);
      if reopened == Err {
        return Err;
      }
      if !reopened.value.needsPassphrase && reopened.value.key != master {
        return Err;
      }
      return Ok(master);
    }

    method SetBiometric(wrapper: nat) returns (r: Result<()>)
      modifies this
      ensures r.Ok? <==> Loaded(old(Contents())).passphrase.Some?
      ensures Contents() == if r.Ok? then Put(old(Contents()), Loaded(old(Contents())).(biometric := Some(wrapper)))
                            else old(Contents())
    {
      var store := LoadKeystore();
      if store.passphrase == None {
        return Err;
      }
      SaveKeystore(store.(biometric := Some(wrapper)));
      return Ok(());
    }

    method SetPin(master: Key, pin: string, salt: nat, hardware: bool) returns (r: Result<()>)
      modifies this
      ensures seen == old(seen) + SetPinWrites(old(Contents()), master, pin, salt, hardware)
      ensures Contents() == Last(old(Contents()), SetPinWrites(old(Contents()), master, pin, salt, hardware))
      ensures r.Ok? <==> AcceptablePin(pin) && Loaded(old(Contents())).passphrase.Some? && hardware
    {
      if !AcceptablePin(pin) {
        return Err;
      }
      var store := LoadKeystore();
      if store.passphrase == None || !hardware {
        return Err;
      }
      SaveKeystore(store.(pin := Some(NewPinWrapper(pin, master, salt))));
      return Ok(());
    }

    method UnlockWithPin(pin: string, salt: nat, hardware: bool, again: bool) returns (r: PinOutcome)
      modifies this
      ensures r == PinAttempt(old(Contents()), pin, salt, hardware, again).0
      ensures seen == old(seen) + PinAttempt(old(Contents()), pin, salt, hardware, again).1
      ensures Contents() == Last(old(Contents()), PinAttempt(old(Contents()), pin, salt, hardware, again).1)
    {
      var store := LoadKeystore();
      if store.pin == None {
        return NoPin;
      }
      var wrapper := store.pin.value;
      wrapper := wrapper.(failures := wrapper.failures + 1);
      SaveKeystore(store.(pin := Some(wrapper)));
      var unsealed := OpenPin(pin, wrapper, hardware);
      if unsealed.Some? {
        wrapper := wrapper.(failures := 0);
        if BelowProfile(wrapper.costs) && again {
          wrapper := NewPinWrapper(pin, unsealed.value, salt);
        }
        SaveKeystore(store.(pin := Some(wrapper)));
        return Opened(unsealed.value);
      }
      if wrapper.failures >= 5 {
        SaveKeystore(store.(pin := None));
        return Disabled;
      }
      return Wrong(5 - wrapper.failures);
    }
  }

  // ---- What every disk keeps --------------------------------------------------------------------------

  /** The passphrase that opens a wrapper. */
  predicate OpensTo(w: PassphraseWrapper, master: Key) {
    && Allowed(w.costs)
    && w.blob.under.OfPassphrase?
    && w.blob == Wrap(master, OfPassphrase(w.blob.under.text, w.salt, w.costs))
  }

  /** The PIN that opens one. */
  predicate PinOpensTo(w: PinWrapper, master: Key) {
    && Allowed(w.costs)
    && w.blob.under.OfPin?
    && w.blob == Wrap(master, OfPin(w.blob.under.pin, w.salt, w.costs))
  }

  predicate Sound(master: Key, d: Disk) {
    var store := Loaded(d);
    && (d.secret.Some? ==> d.secret.value == master)
    && (d.secret.Some? || store.passphrase.Some?)
    && (store.passphrase.Some? ==> OpensTo(store.passphrase.value, master))
    && (store.keyring.Some? ==> store.keyring.value.key == master && store.keyring.value.under.OfKeyring?)
    && (store.alwaysAsk ==> store.passphrase.Some? && store.keyring == None)
    && (store.pin.Some? || store.biometric.Some? ==> store.passphrase.Some?)
    && (store.pin.Some? ==> PinOpensTo(store.pin.value, master))
  }

  // ---- Every way in leads to the one key -----------------------------------------------------------------

  /** Opening without asking gives the key or says a passphrase is needed, and never another key,
      whatever the keyring holds now. */
  lemma UnlockGivesTheKey(master: Key, d: Disk, ring: Ring)
    requires Sound(master, d)
    ensures UnlockSays(d, ring).Ok?
    ensures var u := UnlockSays(d, ring).value;
      if u.needsPassphrase then d.secret == None && Loaded(d).passphrase.Some? else u.key == master
  {
  }

  /** A passphrase opens exactly when it is, read the way the wrapper says, the one it was set with. */
  lemma PassphraseOpens(master: Key, d: Disk, typed: Typed)
    requires Sound(master, d) && Loaded(d).passphrase.Some?
    ensures var w := Loaded(d).passphrase.value;
      PassphraseSays(d, typed) == if Prepare(typed, w.form) == w.blob.under.text then Ok(master) else Err
  {
  }

  /** No disk like this locks its owner out: what opens without asking is the key, and what does
      not opens to the passphrase. */
  lemma NeverLockedOut(master: Key, d: Disk, ring: Ring, typed: Typed)
    requires Sound(master, d)
    requires Loaded(d).passphrase.Some? ==>
      Prepare(typed, Loaded(d).passphrase.value.form) == Loaded(d).passphrase.value.blob.under.text
    ensures UnlockSays(d, ring) == Ok(Unlocked(master, false))
         || (UnlockSays(d, ring) == Ok(Unlocked(NO_KEY, true)) && PassphraseSays(d, typed) == Ok(master))
  {
  }

  // ---- Runs -----------------------------------------------------------------------------------------------

  datatype Action =
    /** Start-up: open without asking and refresh the keyring's copy. */
    | Launch(ring: Ring, refresh: Ring)
    | TypePassphrase(typed: Typed, salt: nat, status: Ring, ring: Ring)
    | SetPassphrase(typed: Typed, alwaysAsk: bool, form: Form, salt: nat, ring: Ring)
    | SetAlwaysAsk(alwaysAsk: bool, ring: Ring)
    | ClearPassphrase(ring: Ring)
    | SetBiometric(wrapper: nat)
    | ClearBiometric
    | SetPin(pin: string, salt: nat, hardware: bool)
    | ClearPin
    | TryPin(pin: string, salt: nat, hardware: bool, again: bool)
    | Exit

  /** The disk, the key in hand while the vault is open, the wrong PINs answered since the last
      right one or the PIN was set, and the tries the last of them was told are left. */
  datatype System = System(disk: Disk, hand: Option<Key>, wrong: nat, left: Option<nat>)

  predicate Enabled(s: System, a: Action) {
    a.SetPassphrase? || a.SetAlwaysAsk? || a.ClearPassphrase? || a.SetPin? ==> s.hand.Some?
  }

  function Writes(s: System, a: Action): seq<Disk>
    requires Enabled(s, a)
  {
    var d := s.disk;
    match a
    case Launch(ring, refresh) =>
      var u := UnlockSays(d, ring);
      if u.Ok? && !u.value.needsPassphrase then StoreRingWrites(d, u.value.key, refresh) else []
    case TypePassphrase(typed, salt, status, ring) => UnlockWithPassphraseWrites(d, typed, salt, status, ring)
    case SetPassphrase(typed, ask, form, salt, ring) =>
      SetPassphraseWrites(d, s.hand.value, typed, ask, form, salt, ring)
    case SetAlwaysAsk(ask, ring) => SetAlwaysAskWrites(d, s.hand.value, ask, ring)
    case ClearPassphrase(ring) => ClearPassphraseWrites(d, s.hand.value, ring)
    case SetBiometric(w) => if Loaded(d).passphrase == None then [] else [Put(d, Loaded(d).(biometric := Some(w)))]
    case ClearBiometric => [Put(d, Loaded(d).(biometric := None))]
    case SetPin(pin, salt, hardware) => SetPinWrites(d, s.hand.value, pin, salt, hardware)
    case ClearPin => [Put(d, Loaded(d).(pin := None))]
    case TryPin(pin, salt, hardware, again) => PinAttempt(d, pin, salt, hardware, again).1
    case Exit => []
  }

  /** The key in hand once the action is done. */
  function Holding(s: System, a: Action): Option<Key> {
    match a
    case Launch(ring, _) =>
      var u := UnlockSays(s.disk, ring);
      if u.Ok? && !u.value.needsPassphrase then Some(u.value.key) else None
    case TypePassphrase(typed, _, _, _) =>
      var k := PassphraseSays(s.disk, typed);
      if k.Ok? then Some(k.value) else s.hand
    case TryPin(pin, salt, hardware, again) =>
      var o := PinAttempt(s.disk, pin, salt, hardware, again).0;
      if o.Opened? then Some(o.key) else s.hand
    case Exit => None
    case _ => s.hand
  }

  /** The action done, or stopped after `n` of its writes and nobody told how it went. */
  function Next(s: System, a: Action, stop: Option<nat>): System
    requires Enabled(s, a) && (stop.Some? ==> stop.value <= |Writes(s, a)|)
  {
    var writes := Writes(s, a);
    var done := if stop.Some? then writes[..stop.value] else writes;
    var t := s.(disk := Last(s.disk, done), hand := if stop.Some? then None else Holding(s, a));
    match a
    case SetPin(_, _, _) => if done != [] then t.(wrong := 0, left := None) else t
    case TryPin(pin, salt, hardware, again) =>
      (match PinAttempt(s.disk, pin, salt, hardware, again).0
       case Opened(_) => if |done| == 2 then t.(wrong := 0, left := None) else t
       case Wrong(l) => if stop.None? then t.(wrong := s.wrong + 1, left := Some(l)) else t
       case _ => t)
    case _ => t
  }

  ghost predicate AllSound(master: Key, writes: seq<Disk>) {
    forall i | 0 <= i < |writes| :: Sound(master, writes[i])
  }

  lemma StoreRingIsSound(master: Key, d: Disk, ring: Ring)
    requires Sound(master, d)
    ensures AllSound(master, StoreRingWrites(d, master, ring))
  {
  }

  /** The passphrase is in place before the key leaves the file. */
  lemma SetPassphraseIsSound(master: Key, d: Disk, typed: Typed, alwaysAsk: bool, form: Form, salt: nat, ring: Ring)
    requires Sound(master, d)
    ensures AllSound(master, SetPassphraseWrites(d, master, typed, alwaysAsk, form, salt, ring))
  {
  }

  /** The key is back in the file before the passphrase goes. */
  lemma ClearPassphraseIsSound(master: Key, d: Disk, ring: Ring)
    requires Sound(master, d)
    ensures AllSound(master, ClearPassphraseWrites(d, master, ring))
  {
    var writes := ClearPassphraseWrites(d, master, ring);
    assert Sound(master, writes[0]) && Sound(master, writes[1]);
    StoreRingIsSound(master, writes[1], ring);
  }

  lemma TypedPassphraseIsSound(master: Key, d: Disk, typed: Typed, salt: nat, status: Ring, ring: Ring)
    requires Sound(master, d)
    ensures AllSound(master, UnlockWithPassphraseWrites(d, typed, salt, status, ring))
  {
    if PassphraseSays(d, typed).Ok? {
      PassphraseOpens(master, d, typed);
      var w := Loaded(d).passphrase.value;
      var d1 := Put(d, Loaded(d).(passphrase := Some(NewPassphraseWrapper(typed, master, w.form, salt))));
      assert Sound(master, d1);
      StoreRingIsSound(master, d, ring);
      StoreRingIsSound(master, d1, ring);
    }
  }

  /** What an action writes is sound at every one of its writes. */
  lemma WritesAreSound(master: Key, s: System, a: Action)
    requires Sound(master, s.disk) && Enabled(s, a) && (s.hand.Some? ==> s.hand.value == master)
    ensures AllSound(master, Writes(s, a))
  {
    hide StoreRingWrites, SetPassphraseWrites, ClearPassphraseWrites, UnlockWithPassphraseWrites;
    match a
    case Launch(ring, refresh) =>
      UnlockGivesTheKey(master, s.disk, ring);
      StoreRingIsSound(master, s.disk, refresh);
    case TypePassphrase(typed, salt, status, ring) => TypedPassphraseIsSound(master, s.disk, typed, salt, status, ring);
    case SetPassphrase(typed, ask, form, salt, ring) =>
      SetPassphraseIsSound(master, s.disk, typed, ask, form, salt, ring);
    case SetAlwaysAsk(ask, ring) =>
      if Loaded(s.disk).passphrase.Some? {
        StoreRingIsSound(master, Put(s.disk, Loaded(s.disk).(alwaysAsk := ask, keyring := None)), ring);
      }
    case ClearPassphrase(ring) => ClearPassphraseIsSound(master, s.disk, ring);
    case _ =>
  }

  lemma HandIsTheKey(master: Key, s: System, a: Action)
    requires Sound(master, s.disk) && Enabled(s, a) && (s.hand.Some? ==> s.hand.value == master)
    ensures Holding(s, a).Some? ==> Holding(s, a).value == master
  {
  }

  ghost predicate IsRun(states: seq<System>, actions: seq<Action>, stops: seq<Option<nat>>) {
    && |stops| == |actions| && |states| == |actions| + 1
    && forall i | 0 <= i < |actions| ::
         && Enabled(states[i], actions[i])
         && (stops[i].Some? ==> stops[i].value <= |Writes(states[i], actions[i])|)
         && states[i + 1] == Next(states[i], actions[i], stops[i])
  }

  /** In every run from a completed first run, with a stop after any write of any operation and the
      keyring saying anything each time it is asked: the key in the file is the key or the passphrase
      wrapper opens to it, every other wrapper holds it, always-ask means a passphrase and no keyring
      wrapper, a PIN or fingerprint means a passphrase, and the key in hand is the key. */
  lemma {:induction false} RunsAreSound(master: Key, states: seq<System>, actions: seq<Action>,
      stops: seq<Option<nat>>, n: nat)
    requires IsRun(states, actions, stops) && n <= |actions|
    requires Sound(master, states[0].disk) && states[0].hand in {None, Some(master)}
    ensures Sound(master, states[n].disk) && states[n].hand in {None, Some(master)}
  {
    if n > 0 {
      var i := n - 1;
      RunsAreSound(master, states, actions, stops, i);
      var s, a := states[i], actions[i];
      HandIsTheKey(master, s, a);
      WritesAreSound(master, s, a);
      hide Sound, Writes, Holding;
      assert states[i + 1] == Next(s, a, stops[i]);
    }
  }

  // ---- What each operation leaves, on any disk ----------------------------------------------------

  /** The keyring, as it answers, opens its blob to this key. */
  predicate RingHolds(d: Disk, ring: Ring, key: Key) {
    ring.Ready? && Loaded(d).keyring == Some(Sealed(key, OfKeyring(ring.secret)))
  }

  ghost predicate RingOpens(d: Disk, ring: Ring) {
    exists key :: RingHolds(d, ring, key)
  }

  /** A launch on any disk and any keyring: the key in the file whatever the keyring holds; without one
      the key the keyring opens, if it opens; failing both the passphrase, if there is one. */
  lemma UnlockExactly(d: Disk, ring: Ring)
    ensures forall key :: d.secret == Some(key) ==> UnlockSays(d, ring) == Ok(Unlocked(key, false))
    ensures d.secret == None ==>
      forall key :: UnlockSays(d, ring) == Ok(Unlocked(key, false)) <==> RingHolds(d, ring, key)
    ensures UnlockSays(d, ring) == Ok(Unlocked(NO_KEY, true))
       <==> d.secret == None && !RingOpens(d, ring) && Loaded(d).passphrase.Some?
    ensures UnlockSays(d, ring) == Err <==> d.secret == None && !RingOpens(d, ring) && Loaded(d).passphrase == None
  {
    if d.secret == None && !RingOpens(d, ring) && ring.Ready? && Loaded(d).keyring.Some? {
      assert !RingHolds(d, ring, Loaded(d).keyring.value.key);
    }
  }

  predicate ReadAlike(form: Form, a: Typed, b: Typed) {
    if form == Words then a.words == b.words else a.text == b.text
  }

  predicate Affordable(c: Costs) {
    c.memory <= 1_048_576 && c.passes <= 64 && c.lanes <= 16
  }

  /** 64 MiB and three passes, or more. */
  predicate Current(c: Costs) {
    c.memory >= 65_536 && c.passes >= 3
  }

  /** A profile never set up is one that nothing opens and that no keyring has a copy of. */
  lemma FirstRunHasNoKey(d: Disk)
    ensures IsFirstRun(d) <==> Loaded(d).keyring == None && forall ring: Ring :: UnlockSays(d, ring) == Err
  {
    assert UnlockSays(d, Missing) == Err <==> d.secret == None && Loaded(d).passphrase == None;
  }

  /** What a passphrase opens, on any disk: the wrapper sealed under just this text, as its form reads it,
      unless the file asks for more work than is allowed. */
  lemma PassphraseExactly(d: Disk, typed: Typed, key: Key)
    ensures PassphraseSays(d, typed) == Ok(key) <==>
      && Loaded(d).passphrase.Some?
      && var w := Loaded(d).passphrase.value;
         && Affordable(w.costs)
         && w.blob == Sealed(key, OfPassphrase(if w.form == Words then typed.words else typed.text, w.salt, w.costs))
  {
  }

  /** And a PIN, where the phone answers too. */
  lemma PinExactly(d: Disk, pin: string, salt: nat, hardware: bool, again: bool, key: Key)
    ensures PinAttempt(d, pin, salt, hardware, again).0 == Opened(key) <==>
      && Loaded(d).pin.Some? && hardware
      && var w := Loaded(d).pin.value; Affordable(w.costs) && w.blob == Sealed(key, OfPin(pin, w.salt, w.costs))
  {
  }

  ghost predicate AsksAlways(d: Disk) {
    forall ring: Ring :: UnlockSays(d, ring) == Ok(Unlocked(NO_KEY, true))
  }

  lemma AskedWithoutRoutes(d: Disk)
    requires d.secret == None && Loaded(d).keyring == None && Loaded(d).passphrase.Some?
    ensures AsksAlways(d)
  {
  }

  /** Everything but the keyring's copy. */
  predicate OnlyKeyringChanged(d: Disk, after: Disk) {
    after.secret == d.secret && Loaded(after).(keyring := None) == Loaded(d).(keyring := None)
  }

  /** The keyring's copy is made unless the vault always asks or the keyring does not answer. */
  lemma RingIsStored(d: Disk, master: Key, ring: Ring)
    ensures var after := Last(d, StoreRingWrites(d, master, ring));
      && OnlyKeyringChanged(d, after)
      && if Loaded(d).alwaysAsk || !ring.Ready? then after == d else RingHolds(after, ring, master)
  {
  }

  /** A start-up that opens by the file puts the file's key back in a keyring that holds another. */
  lemma DriftIsRepaired(s: System, ring: Ring, refresh: Ring, key: Key)
    requires s.disk.secret == Some(key) && !Loaded(s.disk).alwaysAsk && refresh.Ready?
    ensures var t := Next(s, Launch(ring, refresh), None);
      t.hand == Some(key) && t.disk.secret == Some(key) && RingHolds(t.disk, refresh, key)
  {
  }

  /** Setting a passphrase: nothing for one that will not do. Otherwise the key leaves the file, exactly
      this passphrase opens, and the keyring's copy is dropped, left alone or made, as there is need. */
  lemma AfterSetPassphrase(d: Disk, master: Key, typed: Typed, ask: bool, form: Form, salt: nat, ring: Ring)
    ensures var writes := SetPassphraseWrites(d, master, typed, ask, form, salt, ring);
      && (writes == [] <==> typed.text == "" || (form == Verbatim && |typed.text| < 12))
      && (writes != [] ==>
            var after := Last(d, writes);
            && after.secret == None && Loaded(after).alwaysAsk == ask
            && Loaded(after).pin == Loaded(d).pin && Loaded(after).biometric == Loaded(d).biometric
            && (forall t: Typed ::
                  PassphraseSays(after, t) == if ReadAlike(form, t, typed) then Ok(master) else Err)
            && (ask ==> AsksAlways(after))
            && (!ask && Loaded(d).keyring.Some? ==> Loaded(after).keyring == Loaded(d).keyring)
            && (!ask && Loaded(d).keyring == None && ring.Ready? ==>
                  UnlockSays(after, ring) == Ok(Unlocked(master, false))))
  {
  }

  /** Asking always, or no longer: the passphrase stays what it is, and the keyring's copy goes or comes. */
  lemma AfterSetAlwaysAsk(d: Disk, master: Key, ask: bool, ring: Ring)
    requires Loaded(d).passphrase.Some? && d.secret == None
    ensures var after := Last(d, SetAlwaysAskWrites(d, master, ask, ring));
      && (forall t: Typed :: PassphraseSays(after, t) == PassphraseSays(d, t))
      && (ask || !ring.Ready? ==> AsksAlways(after))
      && (!ask && ring.Ready? ==> UnlockSays(after, ring) == Ok(Unlocked(master, false)))
      && Loaded(after).pin == Loaded(d).pin && Loaded(after).biometric == Loaded(d).biometric
  {
  }

  /** Without a passphrase the vault opens whatever the keyring says, and nothing else opens it. */
  lemma AfterClearPassphrase(d: Disk, master: Key, ring: Ring)
    ensures var after := Last(d, ClearPassphraseWrites(d, master, ring));
      && (forall r: Ring :: UnlockSays(after, r) == Ok(Unlocked(master, false)))
      && (forall t: Typed :: PassphraseSays(after, t) == Err)
      && Loaded(after).pin == None && Loaded(after).biometric == None && !Loaded(after).alwaysAsk
      && (ring.Ready? ==> RingHolds(after, ring, master))
  {
  }

  /** A passphrase that opens still opens afterwards, under costs no lower than today's. The keyring's
      copy is rewritten only when it is gone or dead: not when it opens, and not when the keyring is
      locked or not there, which may yet open it. */
  lemma AfterTypedPassphrase(d: Disk, typed: Typed, key: Key, salt: nat, status: Ring, ring: Ring)
    requires PassphraseSays(d, typed) == Ok(key)
    ensures var after := Last(d, UnlockWithPassphraseWrites(d, typed, salt, status, ring));
      var dead := !Loaded(d).alwaysAsk && (status.Missing? || (status.Ready? && !RingOpens(d, status)));
      && PassphraseSays(after, typed) == Ok(key) && Current(Loaded(after).passphrase.value.costs)
      && (Current(Loaded(d).passphrase.value.costs) ==> Loaded(after).passphrase == Loaded(d).passphrase)
      && Loaded(after).passphrase.value.form == Loaded(d).passphrase.value.form
      && after.secret == d.secret && Loaded(after).alwaysAsk == Loaded(d).alwaysAsk
      && Loaded(after).pin == Loaded(d).pin && Loaded(after).biometric == Loaded(d).biometric
      && if dead && ring.Ready? then RingHolds(after, ring, key) else Loaded(after).keyring == Loaded(d).keyring
  {
    var store := Loaded(d);
    if store.keyring.Some? && status.Ready? && store.keyring.value.under == OfKeyring(status.secret) {
      assert RingHolds(d, status, store.keyring.value.key);
    }
  }

  /** What is right opens: the vault is in hand after a launch the file or the keyring answers, after the
      passphrase and after the PIN. */
  lemma RightWaysOpen(master: Key, s: System, ring: Ring, refresh: Ring, typed: Typed, pin: string, salt: nat)
    requires Sound(master, s.disk)
    ensures s.disk.secret.Some? || RingHolds(s.disk, ring, master) ==>
      Next(s, Launch(ring, refresh), None).hand == Some(master)
    ensures PassphraseSays(s.disk, typed).Ok? ==>
      Next(s, TypePassphrase(typed, salt, ring, refresh), None).hand == Some(master)
    ensures Loaded(s.disk).pin.Some? && Loaded(s.disk).pin.value.blob.under.pin == pin ==>
      Next(s, TryPin(pin, salt, true, false), None).hand == Some(master)
    ensures Next(s, Exit, None) == s.(hand := None)
  {
  }

  // ---- The PIN ----------------------------------------------------------------------------------------------

  /** Failures on the disk cover the wrong answers given, and the tries last announced. */
  predicate Counted(s: System) {
    var pin := Loaded(s.disk).pin;
    pin.Some? ==>
      && s.wrong <= pin.value.failures && s.wrong <= 4
      && (s.left.Some? ==> pin.value.failures + s.left.value >= 5)
  }

  /** Counts hold through every action and every stop in it; the tries announced go down; a wrong
      answer is never the fifth; and only setting a PIN brings one back. */
  lemma PinStep(s: System, a: Action, stop: Option<nat>)
    requires Counted(s) && Enabled(s, a) && (stop.Some? ==> stop.value <= |Writes(s, a)|)
    ensures var t := Next(s, a, stop);
      && Counted(t)
      && (t.wrong > s.wrong ==> t.wrong == s.wrong + 1 && t.left.Some? && 1 <= t.left.value <= 4
                                && (s.left.Some? ==> t.left.value < s.left.value))
      && (Loaded(s.disk).pin == None && !a.SetPin? ==> Loaded(t.disk).pin == None)
  {
    if a.TryPin? {
      TryPinStep(s, a, stop);
    } else if a.SetPin? {
      SetPinStep(s, a, stop);
    } else {
      OtherStep(s, a, stop);
    }
  }

  /** Nothing but setting and trying a PIN touches its wrapper, short of removing it. */
  lemma OthersKeepPin(s: System, a: Action)
    requires Enabled(s, a) && !a.TryPin? && !a.SetPin?
    ensures forall i | 0 <= i < |Writes(s, a)| :: Loaded(Writes(s, a)[i]).pin in {Loaded(s.disk).pin, None}
  {
    hide UnlockSays, PassphraseSays, NewPassphraseWrapper;
    match a
    case TypePassphrase(typed, salt, status, ring) => TypingKeepsPin(s.disk, typed, salt, status, ring);
    case _ =>
  }

  lemma TypingKeepsPin(d: Disk, typed: Typed, salt: nat, status: Ring, ring: Ring)
    ensures var writes := UnlockWithPassphraseWrites(d, typed, salt, status, ring);
            forall i | 0 <= i < |writes| :: Loaded(writes[i]).pin == Loaded(d).pin
  {
    hide PassphraseSays, NewPassphraseWrapper;
  }

  lemma OtherStep(s: System, a: Action, stop: Option<nat>)
    requires Counted(s) && Enabled(s, a) && (stop.Some? ==> stop.value <= |Writes(s, a)|)
    requires !a.TryPin? && !a.SetPin?
    ensures var t := Next(s, a, stop);
      Counted(t) && t.wrong == s.wrong && (Loaded(s.disk).pin == None ==> Loaded(t.disk).pin == None)
  {
    hide Writes, Holding;
    OthersKeepPin(s, a);
    var writes := Writes(s, a);
    var done := if stop.Some? then writes[..stop.value] else writes;
    if done != [] {
      assert Last(s.disk, done) == writes[|done| - 1];
    }
  }

  lemma SetPinStep(s: System, a: Action, stop: Option<nat>)
    requires Counted(s) && Enabled(s, a) && (stop.Some? ==> stop.value <= |Writes(s, a)|) && a.SetPin?
    ensures var t := Next(s, a, stop); Counted(t) && t.wrong <= s.wrong
  {
    hide Holding;
  }

  lemma TryPinStep(s: System, a: Action, stop: Option<nat>)
    requires Counted(s) && Enabled(s, a) && (stop.Some? ==> stop.value <= |Writes(s, a)|) && a.TryPin?
    ensures var t := Next(s, a, stop);
      && Counted(t)
      && (t.wrong > s.wrong ==> t.wrong == s.wrong + 1 && t.left.Some? && 1 <= t.left.value <= 4
                                && (s.left.Some? ==> t.left.value < s.left.value))
      && (Loaded(s.disk).pin == None ==> Loaded(t.disk).pin == None)
  {
    hide Holding, OpenPin;
    var writes := Writes(s, a);
    var done := if stop.Some? then writes[..stop.value] else writes;
    if done != [] {
      assert Last(s.disk, done) == writes[|done| - 1];
    }
  }

  lemma {:induction false} PinRuns(states: seq<System>, actions: seq<Action>, stops: seq<Option<nat>>, n: nat)
    requires IsRun(states, actions, stops) && n <= |actions| && Counted(states[0])
    ensures Counted(states[n])
  {
    if n > 0 {
      PinRuns(states, actions, stops, n - 1);
      PinStep(states[n - 1], actions[n - 1], stops[n - 1]);
      assert states[n - 1 + 1] == Next(states[n - 1], actions[n - 1], stops[n - 1]);
    }
  }

  /** After the last try nothing opens by PIN, through any actions and stops, until one is set. */
  lemma {:induction false} DisabledStays(states: seq<System>, actions: seq<Action>, stops: seq<Option<nat>>,
      from: nat, n: nat)
    requires IsRun(states, actions, stops) && from < n <= |actions|
    requires actions[from].TryPin? && stops[from] == None
    requires var a := actions[from];
      PinAttempt(states[from].disk, a.pin, a.salt, a.hardware, a.again).0 == Disabled
    requires forall i | from < i < n :: !actions[i].SetPin?
    ensures Loaded(states[n].disk).pin == None
    ensures forall pin: string, salt: nat, hardware: bool, again: bool ::
      PinAttempt(states[n].disk, pin, salt, hardware, again).0 == NoPin
  {
    if n == from + 1 {
      assert states[from + 1] == Next(states[from], actions[from], stops[from]);
    } else {
      DisabledStays(states, actions, stops, from, n - 1);
      var s, a, stop := states[n - 1], actions[n - 1], stops[n - 1];
      assert states[n - 1 + 1] == Next(s, a, stop);
      NoPinStays(s, a, stop);
    }
  }

  lemma NoPinStays(s: System, a: Action, stop: Option<nat>)
    requires Loaded(s.disk).pin == None && !a.SetPin?
    requires Enabled(s, a) && (stop.Some? ==> stop.value <= |Writes(s, a)|)
    ensures Loaded(Next(s, a, stop).disk).pin == None
  {
    PinStep(s.(wrong := 0, left := None), a, stop);
  }

  /** A PIN opens exactly when it is the one that was set and the phone answers, however often a wrong
      one was given before; setting one makes it that one. */
  lemma RightPinOpens(master: Key, d: Disk, pin: string, salt: nat, hardware: bool, again: bool)
    requires Sound(master, d)
    ensures var o, w := PinAttempt(d, pin, salt, hardware, again).0, Loaded(d).pin;
      && (w.None? <==> o == NoPin)
      && (o.Opened? ==> o.key == master)
      && (w.Some? ==> (o == Opened(master) <==> hardware && pin == w.value.blob.under.pin))
    ensures forall chosen: string, s: nat ::
      var after := Last(d, SetPinWrites(d, master, chosen, s, true));
      AcceptablePin(chosen) && Loaded(d).passphrase.Some? ==>
        (PinAttempt(after, pin, salt, hardware, again).0 == Opened(master) <==> hardware && pin == chosen)
  {
  }

  predicate OnlyPinChanged(d: Disk, after: Disk) {
    after.secret == d.secret && Loaded(after).(pin := None) == Loaded(d).(pin := None)
  }

  /** A PIN is set when it is six digits or more, a passphrase is there and the phone answers; it starts
      with no failures. */
  lemma AfterSetPin(d: Disk, master: Key, pin: string, salt: nat, hardware: bool)
    ensures var writes := SetPinWrites(d, master, pin, salt, hardware);
      && (writes == [] <==>
            || |pin| < 6 || (exists i | 0 <= i < |pin| :: !('0' <= pin[i] <= '9'))
            || Loaded(d).passphrase == None || !hardware)
      && (writes != [] ==> OnlyPinChanged(d, Last(d, writes)) && Loaded(Last(d, writes)).pin.value.failures == 0)
  {
  }

  /** The right PIN opens again afterwards, with no failures held against it, and under today's costs if
      the phone answered for that. */
  lemma RightPinResets(d: Disk, pin: string, salt: nat, hardware: bool, again: bool, key: Key)
    requires PinAttempt(d, pin, salt, hardware, again).0 == Opened(key)
    ensures var after := Last(d, PinAttempt(d, pin, salt, hardware, again).1);
      && OnlyPinChanged(d, after)
      && Loaded(after).pin.Some? && Loaded(after).pin.value.failures == 0
      && OpenPin(pin, Loaded(after).pin.value, true) == Some(key)
      && (again ==> Current(Loaded(after).pin.value.costs))
  {
  }

  /** The disk after some tries, the phone answering each. */
  function Tried(d: Disk, pins: seq<string>): Disk {
    if pins == [] then d
    else
      var before := Tried(d, pins[..|pins| - 1]);
      Last(before, PinAttempt(before, pins[|pins| - 1], 0, true, true).1)
  }

  /** No wrong try is forgotten: each is held against the wrapper. */
  lemma {:induction false} TriesCount(d: Disk, pins: seq<string>)
    requires Loaded(d).pin.Some?
    requires forall i | 0 <= i < |pins| :: OpenPin(pins[i], Loaded(d).pin.value, true) == None
    requires Loaded(d).pin.value.failures + |pins| <= 4
    ensures var w := Loaded(d).pin.value; Loaded(Tried(d, pins)).pin == Some(w.(failures := w.failures + |pins|))
    ensures OnlyPinChanged(d, Tried(d, pins))
  {
    if pins != [] {
      TriesCount(d, pins[..|pins| - 1]);
    }
  }

  /** Since a PIN was set or was right: four wrong tries are told how many are left, four, three, two and
      one, and the fifth disables it. */
  lemma FiveTries(d: Disk, pins: seq<string>, pin: string, salt: nat, again: bool)
    requires Loaded(d).pin.Some? && Loaded(d).pin.value.failures == 0 && |pins| <= 4
    requires forall i | 0 <= i < |pins| :: OpenPin(pins[i], Loaded(d).pin.value, true) == None
    ensures var o := PinAttempt(Tried(d, pins), pin, salt, true, again).0;
      var right := OpenPin(pin, Loaded(d).pin.value, true);
      if right.Some? then o == Opened(right.value) else if |pins| < 4 then o == Wrong(4 - |pins|) else o == Disabled
  {
    TriesCount(d, pins);
  }
}
