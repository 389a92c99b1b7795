/** A group member's key table (src/gdoi/keeper.rs) and the key store it feeds
    (src/rsession/keys.rs). Timers fire in any order and at any time after they
    are due; aborting one may come too late. Each method is one locked section. */
module Keeper {
  import opened Octets
  import opened Teks

  // ---- Session keys.

  const SEC_NONE: byte := 0
  const AES_128_GCM: byte := 1
  const AES_256_GCM: byte := 2
  const SIG_NONE: byte := 0
  const HMAC_SHA256_128: byte := 2
  const HMAC_SHA256_256: byte := 3

  datatype Key = Key(id: u32, material: octets, sec: byte, sig: byte)

  function SecKeyLength(sec: byte): nat { if sec == AES_128_GCM then 16 else if sec == AES_256_GCM then 32 else 0 }

  function MacLengthOf(sig: byte): nat
  {
    if sig == 1 || sig == 6 then 10
    else if sig == 2 || sig == 7 then 16
    else if sig == 3 || sig == 8 then 32
    else 0
  }

  predicate ValidKey(k: Key)
  {
    && k.id != 0
    && !(k.sec == SEC_NONE && k.sig == SIG_NONE)
    && !(k.sec != SEC_NONE && k.sig != SIG_NONE)
    && if k.sec != SEC_NONE then SecKeyLength(k.sec) != 0 && |k.material| == SecKeyLength(k.sec)
       else MacLengthOf(k.sig) != 0 && |k.material| >= 16
  }

  /** The session key of a TEK; none for algorithms the session layer lacks. */
  function SessionKey(t: Tek): (k: Option<Key>)
    requires CheckPolicy(t)
    ensures k.Some? ==> ValidKey(k.value) && k.value.id == t.spi
  {
    if t.enc == ENC_GCM_128 && t.auth == AUTH_NONE then Some(Key(t.spi, t.algorithmKey[..16], AES_128_GCM, SIG_NONE))
    else if t.enc == ENC_GCM_256 && t.auth == AUTH_NONE then Some(Key(t.spi, t.algorithmKey[..32], AES_256_GCM, SIG_NONE))
    else if t.enc == ENC_NONE && t.auth == 2 then Some(Key(t.spi, t.integrityKey, SEC_NONE, HMAC_SHA256_128))
    else if t.enc == ENC_NONE && t.auth == 3 then Some(Key(t.spi, t.integrityKey, SEC_NONE, HMAC_SHA256_256))
    else None
  }

  class KeyStore {
    var keys: map<u32, Key>
    var active: u32

    constructor ()
      ensures keys == map[] && active == 0
    {
      keys, active := map[], 0;
    }

    method Add(k: Key) returns (ok: bool)
      modifies this`keys
      ensures ok <==> ValidKey(k)
      ensures keys == if ok then old(keys)[k.id := k] else old(keys)
    {
      if !ValidKey(k) {
        return false;
      }
      keys := keys[k.id := k];
      return true;
    }

    /** Removing the active key leaves the sender without one. */
    method Remove(id: u32)
      modifies this
      ensures keys == old(keys) - {id} && active == if old(active) == id then 0 else old(active)
    {
      keys := keys - {id};
      if active == id {
        active := 0;
      }
    }

    method SetActive(id: u32) returns (ok: bool)
      modifies this`active
      ensures (ok <==> id in keys) && active == if ok then id else old(active)
    {
      if id !in keys {
        return false;
      }
      active := id;
      return true;
    }
  }

  // ---- The table.

  /** `activation` and `expiry` number an entry's pending tasks. */
  datatype Installed = Installed(
    activates: nat, expires: Option<nat>, added: bool, active: bool, activation: Option<nat>, expiry: Option<nat>)

  datatype Timer = ActivationTimer(spi: u32, at: nat, key: Key) | ExpiryTimer(spi: u32, at: nat)

  type Table = map<u32, Installed>

  type Timers = map<nat, Timer>

  /** The store holds exactly the keys of the entries that are added. */
  ghost predicate StoreOk(keys: Table, held: map<u32, Key>)
  {
    && (forall spi :: spi in held <==> spi in keys && keys[spi].added)
    && forall spi :: spi in keys ==> spi != 0
  }

  /** One added key is active if there is any, and none activated after it. */
  ghost predicate ActiveOk(keys: Table, active: u32)
  {
    && (forall spi :: spi in keys ==> (keys[spi].active <==> spi == active))
    && (active != 0 ==> active in keys && keys[active].added)
    && (active == 0 ==> forall spi :: spi in keys ==> !keys[spi].added)
    && (active != 0 ==> forall spi :: spi in keys && keys[spi].added ==> keys[spi].activates <= keys[active].activates)
  }

  /** Every deadline has a timer to keep it, and every entry not yet added one
      to add it, but for `except`. */
  ghost predicate TimersOk(keys: Table, timers: Timers, nextTimer: nat, except: u32)
  {
    && (forall id :: id in timers ==> id < nextTimer)
    && (forall id :: id in timers && timers[id].ActivationTimer? ==>
          ValidKey(timers[id].key) && timers[id].key.id == timers[id].spi)
    && (forall spi :: spi in keys && keys[spi].expires.Some? ==>
          && keys[spi].expiry.Some? && keys[spi].expiry.value in timers
          && timers[keys[spi].expiry.value] == ExpiryTimer(spi, keys[spi].expires.value))
    && (forall spi :: spi in keys && !keys[spi].added && spi != except ==>
          && keys[spi].activation.Some? && keys[spi].activation.value in timers
          && var t := timers[keys[spi].activation.value]; t.ActivationTimer? && t.spi == spi && t.at == keys[spi].activates)
  }

  /** How two entries are compared: by activation, then by lifetime. */
  predicate NotAfter(a: Installed, b: Installed)
  {
    || a.activates < b.activates
    || (a.activates == b.activates && (b.expires.None? || (a.expires.Some? && a.expires.value <= b.expires.value)))
  }

  class Keeper {
    const store: KeyStore
    var keys: Table
    var timers: Timers
    var nextTimer: nat

    ghost predicate Valid()
      reads this, store
    {
      StoreOk(keys, store.keys) && ActiveOk(keys, store.active) && TimersOk(keys, timers, nextTimer, 0)
    }

    constructor (store: KeyStore)
      requires store.keys == map[] && store.active == 0
      ensures Valid() && this.store == store && keys == map[]
    {
      this.store := store;
      keys, timers, nextTimer := map[], map[], 0;
    }

    method Best() returns (best: Option<u32>)
      ensures best.None? ==> forall spi :: spi in keys ==> !keys[spi].added
      ensures best.Some? ==> best.value in keys && keys[best.value].added
      ensures best.Some? ==> forall spi :: spi in keys && keys[spi].added ==> NotAfter(keys[spi], keys[best.value])
    {
      best := None;
      var rest := keys.Keys;
      while rest != {}
        invariant rest <= keys.Keys
        invariant best.None? ==> forall spi :: spi in keys.Keys - rest ==> !keys[spi].added
        invariant best.Some? ==> best.value in keys && keys[best.value].added
        invariant best.Some? ==>
                    forall spi :: spi in keys.Keys - rest && keys[spi].added ==> NotAfter(keys[spi], keys[best.value])
        decreases |rest|
      {
        var spi :| spi in rest;
        if keys[spi].added && (best.None? || NotAfter(keys[best.value], keys[spi])) {
          best := Some(spi);
        }
        rest := rest - {spi};
      }
    }

    /** Makes the most recently activated key the active one, the longest-lived
        on a tie. */
    method ChooseActive() returns (best: Option<u32>)
      requires StoreOk(keys, store.keys)
      requires store.active == 0 || (store.active in keys && keys[store.active].added)
      modifies this`keys, store`active
      ensures StoreOk(keys, store.keys) && ActiveOk(keys, store.active)
      ensures forall except :: TimersOk(old(keys), timers, nextTimer, except) ==> TimersOk(keys, timers, nextTimer, except)
      ensures keys == Marked(old(keys), best)
      ensures best == if store.active == 0 then None else Some(store.active)
      ensures best.Some? ==> forall spi :: spi in keys && keys[spi].added ==> NotAfter(keys[spi], keys[best.value])
    {
      hide TimersOk;
      best := Best();
      MarkedTimers(keys, timers, nextTimer, best);
      keys := Marked(keys, best);
      if best.Some? {
        var ok := store.SetActive(best.value);
      }
    }

    /** Puts a key in the store when its time comes. */
    method Activate(spi: u32, k: Key)
      requires StoreOk(keys, store.keys) && ActiveOk(keys, store.active) && TimersOk(keys, timers, nextTimer, spi)
      requires ValidKey(k) && k.id == spi
      modifies this`keys, store
      ensures Valid()
      ensures spi in old(keys) ==> spi in keys && keys[spi].added && keys[spi].expires == old(keys)[spi].expires
      ensures keys.Keys == old(keys).Keys
      ensures spi !in old(keys) || old(keys)[spi].added ==> keys == old(keys) && store.keys == old(store.keys)
      ensures spi in old(keys) && !old(keys)[spi].added ==> store.keys == old(store.keys)[spi := k]
    {
      hide TimersOk, ValidKey;
      if spi !in keys || keys[spi].added {
        NoException(keys, timers, nextTimer, spi);
        return;
      }
      AddedTimers(keys, timers, nextTimer, spi);
      var ok := store.Add(k);
      keys := keys[spi := keys[spi].(added := true, activation := None)];
      var best := ChooseActive();
    }

    method RemoveLocked(spi: u32)
      requires Valid()
      modifies this`keys, store
      ensures Valid() && spi !in keys
      ensures keys.Keys == old(keys).Keys - {spi} && store.keys == old(store.keys) - {spi}
      ensures forall k :: k in keys ==> keys[k].(active := false) == old(keys)[k].(active := false)
    {
      if spi !in keys {
        assert spi !in store.keys;
        return;
      }
      hide TimersOk;
      var ik := keys[spi];
      RemovedTimers(keys, timers, nextTimer, spi);
      keys := keys - {spi};
      // A timer that is only dropped still fires; one that is aborted need not.
      if ik.added {
        store.Remove(spi);
        if ik.active {
          var best := ChooseActive();
        }
      }
    }

    /** An entry for a TEK, or the one there is, with the TEK's lifetime. */
    method InstallOne(t: Tek, key: Key, received: nat)
      requires Valid() && ValidKey(key) && key.id == t.spi
      modifies this`keys, this`timers, this`nextTimer
      ensures Valid() && keys.Keys == old(keys).Keys + {t.spi}
      ensures keys[t.spi].expires == Deadline(t, received)
      ensures if t.spi in old(keys) then
                keys[t.spi] == old(keys)[t.spi].(expires := keys[t.spi].expires, expiry := keys[t.spi].expiry)
              else !keys[t.spi].added && keys[t.spi].activates == received + t.delay
      ensures forall k :: k in old(keys) && k != t.spi ==> keys[k] == old(keys)[k]
    {
      hide ValidKey, TimersOk;
      var spi := t.spi;
      KeyHasId(key);
      if spi !in keys {
        FreshEntry(keys, timers, nextTimer, spi, received + t.delay, key);
        keys := keys[spi := Installed(received + t.delay, None, false, false, Some(nextTimer), None)];
        timers := timers[nextTimer := ActivationTimer(spi, received + t.delay, key)];
        nextTimer := nextTimer + 1;
      }
      SetExpiry(spi, Deadline(t, received));
    }

    method SetExpiry(spi: u32, expires: Option<nat>)
      requires Valid() && spi in keys
      modifies this`keys, this`timers, this`nextTimer
      ensures Valid() && keys.Keys == old(keys).Keys
      ensures keys[spi] == old(keys)[spi].(expires := expires, expiry := keys[spi].expiry)
      ensures forall k :: k in keys && k != spi ==> keys[k] == old(keys)[k]
    {
      hide ValidKey, TimersOk, StoreOk, ActiveOk;
      ExpiryTimers(keys, timers, nextTimer, spi, expires);
      ExpiryAside(keys, store.keys, store.active, spi, None, None);
      ExpiryAside(keys, store.keys, store.active, spi, expires, Some(nextTimer));
      var ik := keys[spi];
      keys := keys[spi := ik.(expires := None, expiry := None)];
      if expires.Some? {
        timers := timers[nextTimer := ExpiryTimer(spi, expires.value)];
        keys := keys[spi := ik.(expires := expires, expiry := Some(nextTimer))];
        nextTimer := nextTimer + 1;
        assert keys == old(keys)[spi := ik.(expires := expires, expiry := Some(nextTimer - 1))];
      }
    }

    /** Puts a registration's TEKs in the table: entries it does not list go,
        entries it lists again keep their activation, and all get its lifetimes. */
    method Install(teks: seq<Tek>, received: nat)
      requires Valid() && forall i :: 0 <= i < |teks| ==> CheckPolicy(teks[i])
      modifies this`keys, this`timers, this`nextTimer, store
      ensures Valid()
      ensures forall spi :: spi in keys <==> Lists(teks, spi) && (spi in old(keys) || Usable(teks, spi))
      ensures forall spi :: spi in keys && spi in old(keys) ==>
                keys[spi].added == old(keys)[spi].added && keys[spi].activates == old(keys)[spi].activates
      ensures forall k :: LastUse(teks, k, |teks|) ==>
                teks[k].spi in keys && keys[teks[k].spi].expires == Deadline(teks[k], received)
      ensures forall spi :: spi in keys && !Usable(teks, spi) ==> keys[spi].expires == old(keys)[spi].expires
    {
      hide ValidKey, CheckPolicy, SessionKey, ActiveOk, StoreOk, TimersOk, Lists, Usable;
      var listed: set<u32> := {};
      NoneListed();
      for i := 0 to |teks|
        invariant Valid()
        invariant forall spi :: spi in listed <==> Lists(teks[..i], spi)
        invariant forall spi :: spi in keys <==> spi in old(keys) || Usable(teks[..i], spi)
        invariant forall spi :: spi in old(keys) ==>
                    spi in keys && keys[spi].added == old(keys)[spi].added && keys[spi].activates == old(keys)[spi].activates
        invariant forall k :: LastUse(teks, k, i) ==>
                    teks[k].spi in keys && keys[teks[k].spi].expires == Deadline(teks[k], received)
        invariant forall spi :: spi in old(keys) && !Usable(teks[..i], spi) ==> keys[spi].expires == old(keys)[spi].expires
      {
        OneMore(teks, i);
        listed := listed + {teks[i].spi};
        var k := SessionKey(teks[i]);
        if k.None? { continue; }
        InstallOne(teks[i], k.value, received);
      }
      assert teks[..|teks|] == teks;
      UsableIsListed(teks);
      LastUseIsUsable(teks);
      KeepListed(listed);
    }

    /** Removes the entries that are not listed. */
    method KeepListed(listed: set<u32>)
      requires Valid()
      modifies this`keys, store
      ensures Valid()
      ensures forall spi :: spi in keys <==> spi in old(keys) && spi in listed
      ensures forall spi :: spi in keys ==> keys[spi].(active := false) == old(keys)[spi].(active := false)
    {
      hide ValidKey, ActiveOk, StoreOk, TimersOk;
      var gone: set<u32> := set spi | spi in keys && spi !in listed;
      while gone != {}
        invariant Valid() && gone !! listed
        invariant forall spi :: spi in keys <==> spi in old(keys) && (spi in listed || spi in gone)
        invariant forall spi :: spi in keys ==> keys[spi].(active := false) == old(keys)[spi].(active := false)
        decreases |gone|
      {
        var spi: u32 :| spi in gone;
        RemoveLocked(spi);
        gone := gone - {spi};
      }
    }

    /** Removes every entry, and its key from the store. */
    method RemoveAll()
      requires Valid()
      modifies this`keys, store
      ensures Valid() && keys == map[] && store.keys == map[] && store.active == 0
    {
      hide ValidKey, ActiveOk, StoreOk, TimersOk;
      var all := keys.Keys;
      while all != {}
        invariant Valid() && keys.Keys == all
        decreases |all|
      {
        var spi: u32 :| spi in all;
        RemoveLocked(spi);
        all := all - {spi};
      }
      assert keys == map[];
      NothingHeld(keys, store.keys, store.active);
    }

    /** A task wakes; it does not wake again. */
    method Fire(id: nat)
      requires Valid()
      modifies this`keys, this`timers, store
      ensures Valid() && keys.Keys <= old(keys).Keys
      ensures id in old(timers) && old(timers)[id].ExpiryTimer? ==> old(timers)[id].spi !in keys
      ensures id in old(timers) && old(timers)[id].ActivationTimer? && old(timers)[id].spi in old(keys) ==>
                var spi := old(timers)[id].spi; spi in keys && keys[spi].added && spi in store.keys
    {
      hide ValidKey, TimersOk, ActiveOk;
      if id !in timers {
        return;
      }
      match timers[id]
      case ActivationTimer(spi, _, key) =>
        ActivationFires(keys, timers, nextTimer, id);
        timers := timers - {id};
        Activate(spi, key);
      case ExpiryTimer(spi, _) =>
        RemoveLocked(spi);
        ExpiryFires(keys, timers, nextTimer, id);
        timers := timers - {id};
    }

    /** A task is aborted in time: it never wakes. Only one that no entry waits
        for is ever aborted. */
    method Abort(id: nat)
      requires Valid()
      requires forall spi :: spi in keys ==> keys[spi].activation != Some(id) && keys[spi].expiry != Some(id)
      modifies this`timers
      ensures Valid() && timers == old(timers) - {id}
    {
      hide ValidKey;
      timers := timers - {id};
    }

    /** Any sequence of installs, timers, aborted tasks and shutdowns. Once shut
        down and not registered again, no task that still wakes brings a key
        back. */
    method Follow(steps: seq<Step>)
      requires Valid()
      requires forall i :: 0 <= i < |steps| && steps[i].Registration? ==>
                 forall k :: 0 <= k < |steps[i].teks| ==> CheckPolicy(steps[i].teks[k])
      modifies this`keys, this`timers, this`nextTimer, store
      ensures Valid()
      ensures IsShut(steps, |steps|) ==> keys == map[] && store.keys == map[] && store.active == 0
    {
      hide ValidKey, CheckPolicy, ActiveOk, StoreOk, TimersOk, IsShut;
      ShutStarts(steps);
      for i := 0 to |steps|
        invariant Valid()
        invariant IsShut(steps, i) ==> keys == map[]
      {
        ShutNext(steps, i);
        match steps[i]
        case Registration(teks, received) => Install(teks, received);
        case TimerFires(id) => Fire(id);
        case TaskAborted(id) =>
          if forall spi :: spi in keys ==> keys[spi].activation != Some(id) && keys[spi].expiry != Some(id) {
            Abort(id);
          }
        case Shutdown => RemoveAll();
      }
      if keys == map[] { NothingHeld(keys, store.keys, store.active); }
    }
  }

  datatype Step =
    | Registration(teks: seq<Tek>, received: nat)
    | TimerFires(id: nat)
    | TaskAborted(id: nat)
    | Shutdown

  /** Shut down within the first `n` steps, and not registered since. */
  ghost predicate IsShut(steps: seq<Step>, n: nat)
    requires n <= |steps|
  {
    exists k :: 0 <= k < n && steps[k].Shutdown? && forall j :: k < j < n ==> !steps[j].Registration?
  }

  lemma ShutStarts(steps: seq<Step>)
    ensures !IsShut(steps, 0)
  {
  }

  lemma ShutNext(steps: seq<Step>, i: nat)
    requires i < |steps|
    ensures IsShut(steps, i + 1) ==> steps[i].Shutdown? || (!steps[i].Registration? && IsShut(steps, i))
  {
    if IsShut(steps, i + 1) && !steps[i].Shutdown? {
      var k :| 0 <= k < i + 1 && steps[k].Shutdown? && forall j :: k < j < i + 1 ==> !steps[j].Registration?;
      assert k < i;
    }
  }

  /** When a TEK received at some time expires, if it does. */
  function Deadline(t: Tek, received: nat): Option<nat> { if t.lifetime == 0 then None else Some(received + t.lifetime) }

  /** The last of the first `n` TEKs that gives its SPI a key. */
  ghost predicate LastUse(teks: seq<Tek>, k: int, n: nat)
    requires n <= |teks| && forall i :: 0 <= i < |teks| ==> CheckPolicy(teks[i])
  {
    && 0 <= k < n && SessionKey(teks[k]).Some?
    && forall j :: k < j < n && teks[j].spi == teks[k].spi ==> SessionKey(teks[j]).None?
  }

  function Marked(keys: Table, best: Option<u32>): Table
  {
    map spi | spi in keys :: keys[spi].(active := best == Some(spi))
  }

  predicate Lists(teks: seq<Tek>, spi: u32) { exists i :: 0 <= i < |teks| && teks[i].spi == spi }

  predicate Usable(teks: seq<Tek>, spi: u32)
    requires forall i :: 0 <= i < |teks| ==> CheckPolicy(teks[i])
  {
    exists i :: 0 <= i < |teks| && teks[i].spi == spi && SessionKey(teks[i]).Some?
  }

  lemma NoneListed()
    ensures forall spi :: !Lists([], spi) && !Usable([], spi)
  {
  }

  lemma OneMore(teks: seq<Tek>, i: nat)
    requires i < |teks| && forall k :: 0 <= k < |teks| ==> CheckPolicy(teks[k])
    ensures forall spi :: Lists(teks[..i + 1], spi) <==> Lists(teks[..i], spi) || spi == teks[i].spi
    ensures forall spi ::
              Usable(teks[..i + 1], spi) <==> Usable(teks[..i], spi) || (spi == teks[i].spi && SessionKey(teks[i]).Some?)
  {
    hide CheckPolicy, SessionKey;
    var a, b := teks[..i], teks[..i + 1];
    assert b == a + [teks[i]];
    forall spi ensures Lists(b, spi) <==> Lists(a, spi) || spi == teks[i].spi {
      if Lists(a, spi) { var k :| 0 <= k < |a| && a[k].spi == spi; assert b[k] == a[k]; }
      if spi == teks[i].spi { assert b[i].spi == spi; }
    }
    forall spi ensures Usable(b, spi) <==> Usable(a, spi) || (spi == teks[i].spi && SessionKey(teks[i]).Some?) {
      if Usable(a, spi) {
        var k :| 0 <= k < |a| && a[k].spi == spi && SessionKey(a[k]).Some?;
        assert b[k] == a[k];
      }
      if spi == teks[i].spi { assert b[i].spi == spi; }
    }
  }

  lemma UsableIsListed(teks: seq<Tek>)
    requires forall k :: 0 <= k < |teks| ==> CheckPolicy(teks[k])
    ensures forall spi :: Usable(teks, spi) ==> Lists(teks, spi)
  {
    hide CheckPolicy, SessionKey;
  }

  lemma LastUseIsUsable(teks: seq<Tek>)
    requires forall k :: 0 <= k < |teks| ==> CheckPolicy(teks[k])
    ensures forall k :: LastUse(teks, k, |teks|) ==> Usable(teks, teks[k].spi)
  {
    hide CheckPolicy, SessionKey;
  }

  lemma KeyHasId(k: Key)
    requires ValidKey(k)
    ensures k.id != 0
  {
  }

  lemma MarkedTimers(keys: Table, timers: Timers, nextTimer: nat, best: Option<u32>)
    ensures forall except :: TimersOk(keys, timers, nextTimer, except) ==> TimersOk(Marked(keys, best), timers, nextTimer, except)
  {
    hide ValidKey;
    forall except | TimersOk(keys, timers, nextTimer, except)
      ensures TimersOk(Marked(keys, best), timers, nextTimer, except)
    {
    }
  }

  lemma NoException(keys: Table, timers: Timers, nextTimer: nat, spi: u32)
    requires TimersOk(keys, timers, nextTimer, spi) && (spi !in keys || keys[spi].added)
    ensures TimersOk(keys, timers, nextTimer, 0)
  {
    hide ValidKey;
  }

  lemma AddedTimers(keys: Table, timers: Timers, nextTimer: nat, spi: u32)
    requires TimersOk(keys, timers, nextTimer, spi) && spi in keys
    ensures TimersOk(keys[spi := keys[spi].(added := true, activation := None)], timers, nextTimer, 0)
  {
    hide ValidKey;
  }

  lemma RemovedTimers(keys: Table, timers: Timers, nextTimer: nat, spi: u32)
    requires TimersOk(keys, timers, nextTimer, 0)
    ensures TimersOk(keys - {spi}, timers, nextTimer, 0)
  {
    hide ValidKey;
  }

  lemma ExpiryTimers(keys: Table, timers: Timers, nextTimer: nat, spi: u32, expires: Option<nat>)
    requires TimersOk(keys, timers, nextTimer, 0) && spi in keys
    ensures TimersOk(keys[spi := keys[spi].(expires := None, expiry := None)], timers, nextTimer, 0)
    ensures expires.Some? ==>
              TimersOk(keys[spi := keys[spi].(expires := expires, expiry := Some(nextTimer))],
                       timers[nextTimer := ExpiryTimer(spi, expires.value)], nextTimer + 1, 0)
  {
    hide ValidKey;
  }

  lemma ActivationFires(keys: Table, timers: Timers, nextTimer: nat, id: nat)
    requires TimersOk(keys, timers, nextTimer, 0) && 0 !in keys && id in timers && timers[id].ActivationTimer?
    ensures TimersOk(keys, timers - {id}, nextTimer, timers[id].spi)
    ensures ValidKey(timers[id].key) && timers[id].key.id == timers[id].spi
  {
    hide ValidKey;
  }

  lemma ExpiryFires(keys: Table, timers: Timers, nextTimer: nat, id: nat)
    requires TimersOk(keys, timers, nextTimer, 0) && id in timers && timers[id].ExpiryTimer? && timers[id].spi !in keys
    ensures TimersOk(keys, timers - {id}, nextTimer, 0)
  {
    hide ValidKey;
  }

  /** A deadline is no matter for the store. */
  lemma ExpiryAside(keys: Table, held: map<u32, Key>, active: u32, spi: u32, expires: Option<nat>, expiry: Option<nat>)
    requires StoreOk(keys, held) && ActiveOk(keys, active) && spi in keys
    ensures var keys' := keys[spi := keys[spi].(expires := expires, expiry := expiry)];
            StoreOk(keys', held) && ActiveOk(keys', active)
  {
  }

  lemma FreshEntry(keys: Table, timers: Timers, nextTimer: nat, spi: u32, at: nat, key: Key)
    requires TimersOk(keys, timers, nextTimer, 0) && spi !in keys && ValidKey(key) && key.id == spi
    ensures TimersOk(keys[spi := Installed(at, None, false, false, Some(nextTimer), None)],
                     timers[nextTimer := ActivationTimer(spi, at, key)], nextTimer + 1, 0)
  {
    hide ValidKey;
  }

  lemma NothingHeld(keys: Table, held: map<u32, Key>, active: u32)
    requires keys == map[] && StoreOk(keys, held) && ActiveOk(keys, active)
    ensures held == map[] && active == 0
  {
  }
}
