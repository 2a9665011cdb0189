/**
  Keyboard-shortcut modifier checks and boolean settings kept in the
  browser's string key-value storage, here an explicit map.
 */
module Helpers {

  /** The modifier flags of a keyboard event. */
  datatype KeyEvent = KeyEvent(ctrlKey: bool, altKey: bool, shiftKey: bool, metaKey: bool)

  /**
    Reference reading of a shortcut's modifier list: each recognised name
    that occurs in it demands its flag, and nothing else matters.
   */
  predicate ModifiersHeld(event: KeyEvent, modifiers: seq<string>) {
    (("Ctrl" in modifiers || "Control" in modifiers) ==> event.ctrlKey) &&
    ("Alt" in modifiers ==> event.altKey) &&
    ("Shift" in modifiers ==> event.shiftKey) &&
    ("Meta" in modifiers ==> event.metaKey)
  }

  /** Whether every recognised modifier named in `modifiers` is pressed in `event`. */
  method CheckModifiers(event: KeyEvent, modifiers: seq<string>) returns (ok: bool)
    ensures ok <==> ModifiersHeld(event, modifiers)
  {
    for i := 0 to |modifiers|
      invariant ModifiersHeld(event, modifiers[..i])
    {
      var modifier := modifiers[i];
      assert modifiers[..i + 1] == modifiers[..i] + [modifier];
      if modifier == "Ctrl" || modifier == "Control" {
        if !event.ctrlKey {
          assert modifier in modifiers;
          return false;
        }
      } else if modifier == "Alt" {
        if !event.altKey {
          assert modifier in modifiers;
          return false;
        }
      } else if modifier == "Shift" {
        if !event.shiftKey {
          assert modifier in modifiers;
          return false;
        }
      } else if modifier == "Meta" {
        if !event.metaKey {
          assert modifier in modifiers;
          return false;
        }
      }
    }
    assert modifiers[..|modifiers|] == modifiers;
    return true;
  }

  /** An empty modifier list is always satisfied. */
  lemma NoModifiers(event: KeyEvent)
    ensures ModifiersHeld(event, [])
  {
  }

  /** "Ctrl" and "Control" both name the control key; the other names name one flag each. */
  lemma SingleModifier(event: KeyEvent)
    ensures ModifiersHeld(event, ["Ctrl"]) == event.ctrlKey
    ensures ModifiersHeld(event, ["Control"]) == event.ctrlKey
    ensures ModifiersHeld(event, ["Alt"]) == event.altKey
    ensures ModifiersHeld(event, ["Shift"]) == event.shiftKey
    ensures ModifiersHeld(event, ["Meta"]) == event.metaKey
  {
  }

  predicate Recognised(modifier: string) {
    modifier in {"Ctrl", "Control", "Alt", "Shift", "Meta"}
  }

  /** A name the check does not recognise, wherever it is added, has no effect. */
  lemma UnknownModifierIgnored(event: KeyEvent, front: seq<string>, back: seq<string>, name: string)
    requires !Recognised(name)
    ensures ModifiersHeld(event, front + [name] + back) == ModifiersHeld(event, front + back)
  {
  }

  /** Only which names occur matters: not their order, not how often they occur. */
  lemma ModifiersByMembership(event: KeyEvent, a: seq<string>, b: seq<string>)
    requires forall m :: m in a <==> m in b
    ensures ModifiersHeld(event, a) == ModifiersHeld(event, b)
  {
  }

  /** The prefix that every settings key carries in storage. */
  const SettingsPrefix: string := "settings:"

  function StorageKey(key: string): string {
    SettingsPrefix + key
  }

  /** How storage writes a boolean: as its string form. */
  function BoolString(value: bool): string {
    if value then "true" else "false"
  }

  /**
    Reads a boolean setting: the default when nothing is stored under the
    key, and otherwise whether the stored string is exactly "true".
   */
  function GetBoolSetting(storage: map<string, string>, key: string, defaultValue: bool): (r: bool)
    ensures StorageKey(key) !in storage ==> r == defaultValue
    ensures StorageKey(key) in storage ==> (r <==> storage[StorageKey(key)] == "true")
  {
    var k := StorageKey(key);
    if k in storage then storage[k] == "true" else defaultValue
  }

  /** Storing a boolean and reading it back gives the boolean, whatever the default. */
  lemma SetThenGet(storage: map<string, string>, key: string, value: bool, defaultValue: bool)
    ensures GetBoolSetting(storage[StorageKey(key) := BoolString(value)], key, defaultValue) == value
  {
  }

  /** Distinct setting names live under distinct storage keys. */
  lemma StorageKeyInjective(key: string, other: string)
    ensures StorageKey(key) == StorageKey(other) ==> key == other
  {
    assert StorageKey(key)[|SettingsPrefix|..] == key;
    assert StorageKey(other)[|SettingsPrefix|..] == other;
  }

  /** Storing one setting leaves every other setting as it was. */
  lemma SetLeavesOthers(storage: map<string, string>, key: string, other: string, value: bool, defaultValue: bool)
    requires key != other
    ensures GetBoolSetting(storage[StorageKey(key) := BoolString(value)], other, defaultValue)
         == GetBoolSetting(storage, other, defaultValue)
  {
    StorageKeyInjective(key, other);
  }

  /** The browser's string storage. */
  class Storage {
    var items: map<string, string>

    constructor (items: map<string, string>)
      ensures this.items == items
    {
      this.items := items;
    }
  }

  /** A boolean setting bound to one key of a storage. */
  class BoolProperty {
    const storage: Storage
    const key: string
    const defaultValue: bool

    constructor (storage: Storage, key: string, defaultValue: bool)
      ensures this.storage == storage && this.key == key && this.defaultValue == defaultValue
    {
      this.storage := storage;
      this.key := key;
      this.defaultValue := defaultValue;
    }

    /** Reads the setting; the same decoding as `GetBoolSetting`. */
    function Get(): (r: bool)
      reads storage
      ensures r == GetBoolSetting(storage.items, key, defaultValue)
    {
      var k := StorageKey(key);
      if k in storage.items then storage.items[k] == "true" else defaultValue
    }

    /** Writes the setting as "true" or "false"; other keys keep their values. */
    method Set(value: bool)
      modifies storage
      ensures storage.items == old(storage.items)[StorageKey(key) := BoolString(value)]
      ensures Get() == value
    {
      storage.items := storage.items[StorageKey(key) := BoolString(value)];
    }
  }
}
