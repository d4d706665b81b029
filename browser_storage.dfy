/**
 * The shipping-protection override kept in `localStorage` (cart_drawer.js, lines 255-274):
 * one JSON record `{ value, expiry }` under a fixed key, written with a one-hour lifetime
 * and checked for expiry, and deleted when stale, each time it is read.
 */
module BrowserStorage {

  /** The record stored under the override key. */
  datatype Entry = Entry(value: string, expiry: int)

  type Store = map<string, Entry>

  const ProtectionKey: string := "shippingProtectionDisabled"

  /** One hour in milliseconds (`60 * 60 * 1000`). */
  const OverrideLifetimeMs: int := 3600000

  /** The record `setShippingProtectionDisabled` writes at time `now`. */
  function DisabledEntry(now: int): Entry {
    Entry("true", now + OverrideLifetimeMs)
  }

  /** What `isShippingProtectionDisabled()` answers on store `m` at time `now`. */
  function OverrideActive(m: Store, now: int): bool {
    ProtectionKey in m && m[ProtectionKey].value == "true" && now < m[ProtectionKey].expiry
  }

  /** The store after that read: a stored record that does not make the override active is deleted. */
  function AfterRead(m: Store, now: int): Store {
    if ProtectionKey in m && !OverrideActive(m, now) then m - {ProtectionKey} else m
  }

  /** The browser's `localStorage`, of which only the override key is used. */
  class LocalStorage {
    var entries: Store

    constructor (initial: Store)
      ensures entries == initial
    {
      entries := initial;
    }

    /** `setShippingProtectionDisabled()` at time `now`. */
    method SetProtectionDisabled(now: int)
      modifies this
      ensures entries == old(entries)[ProtectionKey := DisabledEntry(now)]
    {
      entries := entries[ProtectionKey := DisabledEntry(now)];
    }

    /** `localStorage.removeItem(key)`. */
    method RemoveItem(key: string)
      modifies this
      ensures entries == old(entries) - {key}
    {
      entries := entries - {key};
    }

    /** `isShippingProtectionDisabled()` at time `now`: true exactly when the stored value is "true"
        and `now` is before its expiry; any other stored record is deleted on the spot. */
    method IsProtectionDisabled(now: int) returns (disabled: bool)
      modifies this
      ensures disabled == OverrideActive(old(entries), now)
      ensures entries == AfterRead(old(entries), now)
      ensures forall k :: k != ProtectionKey ==> (k in entries <==> k in old(entries))
    {
      if ProtectionKey in entries {
        var stored := entries[ProtectionKey];
        if stored.value == "true" && now < stored.expiry {
          return true;
        } else {
          entries := entries - {ProtectionKey};
        }
      }
      return false;
    }
  }

  /** A freshly written override is honoured strictly before its expiry and ignored, and deleted, from then on. */
  lemma WrittenOverrideExpires(m: Store, written: int, now: int)
    ensures OverrideActive(m[ProtectionKey := DisabledEntry(written)], now) <==> now < written + OverrideLifetimeMs
    ensures now >= written + OverrideLifetimeMs ==> ProtectionKey !in AfterRead(m[ProtectionKey := DisabledEntry(written)], now)
  {
  }

  /** A read leaves a store on which a second read at the same time gives the same answer and deletes nothing;
      only the override key can be affected, and it survives only when the override is active. */
  lemma ReadSettles(m: Store, now: int)
    ensures OverrideActive(AfterRead(m, now), now) == OverrideActive(m, now)
    ensures AfterRead(AfterRead(m, now), now) == AfterRead(m, now)
    ensures ProtectionKey in AfterRead(m, now) ==> OverrideActive(m, now)
    ensures forall k :: k != ProtectionKey ==> (k in AfterRead(m, now) <==> k in m)
  {
  }

  /** Once a read has found the record stale, no later read honours it: expiry is final. */
  lemma ExpiryIsFinal(m: Store, now: int, later: int)
    requires now <= later
    ensures !OverrideActive(m, now) ==> !OverrideActive(AfterRead(m, now), later)
    ensures OverrideActive(m, later) ==> OverrideActive(m, now)
  {
  }
}
