// src/plugins/buttonrebinds/buttonrebindsfilter.cpp: an input filter that
// turns extra mouse buttons and tablet pad buttons into key presses, as
// configured in the ButtonRebinds group of kcminputrc. Reading the
// configuration, QKeySequence::fromString, QString::toUInt and the
// keysym/keycode conversions are parameters of the model.
module ButtonRebinds {
  import opened Common

  /** The modifier part of a key combination (Qt::KeyboardModifier). */
  datatype Modifier = ShiftModifier | ControlModifier | AltModifier | MetaModifier | KeypadModifier | GroupSwitchModifier

  /** One chord of a QKeySequence: a Qt key and its modifiers. */
  datatype KeyCombination = KeyCombination(key: int, modifiers: set<Modifier>)

  /** QKeySequence: up to four chords; the empty sequence is the default value. */
  type KeySequence = seq<KeyCombination>

  /** A keyChanged emission of the filter's virtual keyboard. */
  datatype KeyEvent = KeyEvent(code: nat, pressed: bool, time: nat)

  /** Linux input event codes of the modifier keys. */
  const KEY_LEFTCTRL: nat := 29
  const KEY_LEFTSHIFT: nat := 42
  const KEY_LEFTALT: nat := 56
  const KEY_LEFTMETA: nat := 125

  /** The kinds of mouse event the filter sees. */
  datatype MouseEventType = MouseButtonPress | MouseButtonRelease | OtherMouseEvent

  /** One key of a tablet's configuration group: the button name and its string list. */
  datatype TabletButtonEntry = TabletButtonEntry(buttonName: string, entry: seq<string>)

  /** One tablet's configuration group. */
  datatype TabletGroup = TabletGroup(name: string, buttons: seq<TabletButtonEntry>)

  /** Qt::ExtraButton1 is 0x08 and each following extra button the next bit. */
  function ExtraButtonValue(i: nat): nat
  {
    Pow2(i + 2)
  }

  lemma {:induction false} Pow2Increasing(a: nat, b: nat)
    requires a < b
    ensures Pow2(a) < Pow2(b)
    decreases b
  {
    if a < b - 1 {
      Pow2Increasing(a, b - 1);
    }
  }

  /** A configured entry that asks for a key: exactly two strings, the first "Key". */
  predicate IsKeyEntry(entry: seq<string>)
  {
    |entry| == 2 && entry[0] == "Key"
  }

  /** The mouse mapping built from ExtraButton1..ExtraButton n. */
  function MouseMappingUpTo(entries: nat -> seq<string>, fromString: string -> KeySequence, n: nat): map<nat, KeySequence>
  {
    if n == 0 then map[]
    else
      var m := MouseMappingUpTo(entries, fromString, n - 1);
      var e := entries(n);
      if IsKeyEntry(e) && fromString(e[1]) != [] then m[ExtraButtonValue(n) := fromString(e[1])] else m
  }

  /**
   * The mouse mapping holds exactly the extra buttons up to n whose entry
   * asks for a non-empty key sequence, each bound to that sequence.
   */
  lemma {:induction false} MouseMappingContents(entries: nat -> seq<string>, fromString: string -> KeySequence, n: nat)
    ensures var m := MouseMappingUpTo(entries, fromString, n);
      forall i :: 1 <= i <= n ==>
        (ExtraButtonValue(i) in m <==> IsKeyEntry(entries(i)) && fromString(entries(i)[1]) != [])
        && (ExtraButtonValue(i) in m ==> m[ExtraButtonValue(i)] == fromString(entries(i)[1]))
    ensures var m := MouseMappingUpTo(entries, fromString, n);
      forall k :: k in m ==> m[k] != [] && exists i :: 1 <= i <= n && k == ExtraButtonValue(i)
  {
    if n > 0 {
      MouseMappingContents(entries, fromString, n - 1);
      forall i | 1 <= i < n ensures ExtraButtonValue(i) != ExtraButtonValue(n) {
        Pow2Increasing(i + 2, n + 2);
      }
    }
  }

  /** One tablet's entries, inserted in order into m. */
  function TabletEntries(m: map<(string, nat), KeySequence>, tablet: string, buttons: seq<TabletButtonEntry>,
                         parseUInt: string -> Option<nat>, fromString: string -> KeySequence): map<(string, nat), KeySequence>
    decreases |buttons|
  {
    if buttons == [] then m
    else
      var b := buttons[0];
      var button := parseUInt(b.buttonName);
      var m' := if button.Some? && IsKeyEntry(b.entry) && fromString(b.entry[1]) != []
                then m[(tablet, button.value) := fromString(b.entry[1])] else m;
      TabletEntries(m', tablet, buttons[1..], parseUInt, fromString)
  }

  /** The tablet mapping after all tablets' entries were inserted into m. */
  function TabletMapping(m: map<(string, nat), KeySequence>, tablets: seq<TabletGroup>,
                         parseUInt: string -> Option<nat>, fromString: string -> KeySequence): map<(string, nat), KeySequence>
    decreases |tablets|
  {
    if tablets == [] then m
    else TabletMapping(TabletEntries(m, tablets[0].name, tablets[0].buttons, parseUInt, fromString), tablets[1..], parseUInt, fromString)
  }

  /** Inserting entries never drops a binding, and only binds non-empty sequences. */
  lemma {:induction false} TabletEntriesGrow(m: map<(string, nat), KeySequence>, tablet: string, buttons: seq<TabletButtonEntry>,
                                             parseUInt: string -> Option<nat>, fromString: string -> KeySequence)
    ensures var r := TabletEntries(m, tablet, buttons, parseUInt, fromString);
      (forall k :: k in m ==> k in r)
      && (forall k :: k in r ==> (k in m && r[k] == m[k]) || r[k] != [])
      && (forall k :: k in r && k.0 != tablet ==> k in m && r[k] == m[k])
    decreases |buttons|
  {
    if buttons != [] {
      var b := buttons[0];
      var button := parseUInt(b.buttonName);
      var m' := if button.Some? && IsKeyEntry(b.entry) && fromString(b.entry[1]) != []
                then m[(tablet, button.value) := fromString(b.entry[1])] else m;
      TabletEntriesGrow(m', tablet, buttons[1..], parseUInt, fromString);
      assert forall k :: k in m' ==> (k in m && m'[k] == m[k]) || m'[k] != [];
      assert forall k :: k in m' && k.0 != tablet ==> k in m && m'[k] == m[k];
    }
  }

  /**
   * Reloading keeps every tablet binding it had (the tablet mapping is not
   * cleared); every binding it adds is a non-empty key sequence.
   */
  lemma {:induction false} TabletMappingGrows(m: map<(string, nat), KeySequence>, tablets: seq<TabletGroup>,
                                              parseUInt: string -> Option<nat>, fromString: string -> KeySequence)
    ensures var r := TabletMapping(m, tablets, parseUInt, fromString);
      (forall k :: k in m ==> k in r) && (forall k :: k in r ==> (k in m && r[k] == m[k]) || r[k] != [])
    decreases |tablets|
  {
    if tablets != [] {
      var m' := TabletEntries(m, tablets[0].name, tablets[0].buttons, parseUInt, fromString);
      TabletEntriesGrow(m, tablets[0].name, tablets[0].buttons, parseUInt, fromString);
      TabletMappingGrows(m', tablets[1..], parseUInt, fromString);
    }
  }

  /** The modifier keys pressed or released ahead of the key, in the order Shift, Ctrl, Alt, Meta. */
  function ModifierKeys(mods: set<Modifier>): (codes: seq<nat>)
    ensures |codes| <= 4
  {
    var shift := if ShiftModifier in mods then [KEY_LEFTSHIFT] else [];
    var ctrl := if ControlModifier in mods then shift + [KEY_LEFTCTRL] else shift;
    var alt := if AltModifier in mods then ctrl + [KEY_LEFTALT] else ctrl;
    if MetaModifier in mods then alt + [KEY_LEFTMETA] else alt
  }

  /** Each modifier key is sent exactly when its modifier is held. */
  lemma ModifierKeysPresent(mods: set<Modifier>)
    ensures KEY_LEFTSHIFT in ModifierKeys(mods) <==> ShiftModifier in mods
    ensures KEY_LEFTCTRL in ModifierKeys(mods) <==> ControlModifier in mods
    ensures KEY_LEFTALT in ModifierKeys(mods) <==> AltModifier in mods
    ensures KEY_LEFTMETA in ModifierKeys(mods) <==> MetaModifier in mods
  {
  }

  /** One key event per code, all with the same state and time. */
  function KeyEventsOf(codes: seq<nat>, pressed: bool, time: nat): (r: seq<KeyEvent>)
    ensures |r| == |codes|
    ensures forall k :: 0 <= k < |r| ==> r[k] == KeyEvent(codes[k], pressed, time)
  {
    if codes == [] then [] else [KeyEvent(codes[0], pressed, time)] + KeyEventsOf(codes[1..], pressed, time)
  }

  /** What sendKeySequence emits, or None when it returns false. */
  function KeySequenceEvents(keys: KeySequence, pressed: bool, time: nat,
                             toSym: KeyCombination -> Option<int>, toKeycode: int -> Option<nat>): Option<seq<KeyEvent>>
  {
    if keys == [] then None
    else
      var sym := toSym(keys[0]);
      if sym.None? then None
      else
        var code := toKeycode(sym.value);
        if code.None? then None
        else Some(KeyEventsOf(ModifierKeys(keys[0].modifiers) + [code.value], pressed, time))
  }

  /**
   * Only the first chord counts; on success the modifier keys present come
   * first, the key last, all with the given state and time.
   */
  lemma KeySequenceEventsShape(keys: KeySequence, pressed: bool, time: nat,
                               toSym: KeyCombination -> Option<int>, toKeycode: int -> Option<nat>)
    ensures keys != [] ==> KeySequenceEvents(keys, pressed, time, toSym, toKeycode) == KeySequenceEvents(keys[..1], pressed, time, toSym, toKeycode)
    ensures var r := KeySequenceEvents(keys, pressed, time, toSym, toKeycode);
      r.Some? ==> (|r.value| == |ModifierKeys(keys[0].modifiers)| + 1
        && r.value[|r.value| - 1].code == toKeycode(toSym(keys[0]).value).value
        && forall k :: 0 <= k < |r.value| ==> (r.value[k].pressed == pressed && r.value[k].time == time
          && (k < |r.value| - 1 ==> r.value[k].code == ModifierKeys(keys[0].modifiers)[k])))
  {
  }

  /** QHash::value: the bound sequence, or the empty one. */
  function Lookup<K>(m: map<K, KeySequence>, k: K): KeySequence
  {
    if k in m then m[k] else []
  }

  /** ButtonRebindsFilter. */
  class ButtonRebindsFilter {
    const fromString: string -> KeySequence
    const parseUInt: string -> Option<nat>
    const toSym: KeyCombination -> Option<int>
    const toKeycode: int -> Option<nat>
    var mouseMapping: map<nat, KeySequence>
    var tabletMapping: map<(string, nat), KeySequence>
    /** The filter is in the input redirection's filter chain (at the front). */
    var installed: bool
    var emitted: seq<KeyEvent>

    constructor(fromString: string -> KeySequence, parseUInt: string -> Option<nat>,
                toSym: KeyCombination -> Option<int>, toKeycode: int -> Option<nat>)
      ensures this.fromString == fromString && this.parseUInt == parseUInt
      ensures this.toSym == toSym && this.toKeycode == toKeycode
      ensures mouseMapping == map[] && tabletMapping == map[] && !installed && emitted == []
    {
      this.fromString, this.parseUInt, this.toSym, this.toKeycode := fromString, parseUInt, toSym, toKeycode;
      mouseMapping, tabletMapping, installed, emitted := map[], map[], false, [];
    }

    /**
     * loadConfig, given the Mouse group's entries by extra-button number and
     * the Tablet group's subgroups: the mouse mapping is rebuilt, the tablet
     * mapping extended, and the filter installed iff either is non-empty.
     */
    method LoadConfig(mouseEntries: nat -> seq<string>, tablets: seq<TabletGroup>)
      modifies this`mouseMapping, this`tabletMapping, this`installed
      ensures mouseMapping == MouseMappingUpTo(mouseEntries, fromString, 24)
      ensures tabletMapping == TabletMapping(old(tabletMapping), tablets, parseUInt, fromString)
      ensures installed <==> mouseMapping != map[] || tabletMapping != map[]
    {
      installed := false;
      LoadMouse(mouseEntries);
      LoadTablets(tablets);
      if mouseMapping != map[] || tabletMapping != map[] {
        installed := true;
      }
    }

    /** The loop of loadConfig over ExtraButton1..ExtraButton24. */
    method LoadMouse(mouseEntries: nat -> seq<string>)
      modifies this`mouseMapping
      ensures mouseMapping == MouseMappingUpTo(mouseEntries, fromString, 24)
    {
      mouseMapping := map[];
      for i := 1 to 25
        invariant mouseMapping == MouseMappingUpTo(mouseEntries, fromString, i - 1)
      {
        var entry := mouseEntries(i);
        if |entry| == 2 && entry[0] == "Key" {
          var keys := fromString(entry[1]);
          if keys != [] {
            mouseMapping := mouseMapping[ExtraButtonValue(i) := keys];
          }
        }
      }
    }

    /** The loop of loadConfig over the Tablet group's subgroups. */
    method LoadTablets(tablets: seq<TabletGroup>)
      modifies this`tabletMapping
      ensures tabletMapping == TabletMapping(old(tabletMapping), tablets, parseUInt, fromString)
    {
      var rest := tablets;
      while rest != []
        invariant TabletMapping(tabletMapping, rest, parseUInt, fromString) == TabletMapping(old(tabletMapping), tablets, parseUInt, fromString)
        decreases |rest|
      {
        LoadTablet(rest[0]);
        rest := rest[1..];
      }
    }

    /** The inner loop of loadConfig over one tablet's buttons. */
    method LoadTablet(tablet: TabletGroup)
      modifies this`tabletMapping
      ensures tabletMapping == TabletEntries(old(tabletMapping), tablet.name, tablet.buttons, parseUInt, fromString)
    {
      var rest := tablet.buttons;
      while rest != []
        invariant TabletEntries(tabletMapping, tablet.name, rest, parseUInt, fromString)
               == TabletEntries(old(tabletMapping), tablet.name, tablet.buttons, parseUInt, fromString)
        decreases |rest|
      {
        var b := rest[0];
        var button := parseUInt(b.buttonName);
        if button.Some? && |b.entry| == 2 && b.entry[0] == "Key" {
          var keys := fromString(b.entry[1]);
          if keys != [] {
            tabletMapping := tabletMapping[(tablet.name, button.value) := keys];
          }
        }
        rest := rest[1..];
      }
    }

    /** sendKeySequence: emits the events of KeySequenceEvents, and reports whether there were any. */
    method SendKeySequence(keys: KeySequence, pressed: bool, time: nat) returns (ok: bool)
      modifies this`emitted
      ensures ok <==> KeySequenceEvents(keys, pressed, time, toSym, toKeycode).Some?
      ensures emitted == old(emitted) + (if ok then KeySequenceEvents(keys, pressed, time, toSym, toKeycode).value else [])
    {
      if keys == [] {
        return false;
      }
      var key := keys[0];
      var sym := toSym(key);
      if sym.None? {
        return false;
      }
      var keyCode := toKeycode(sym.value);
      if keyCode.None? {
        return false;
      }
      var codes: seq<nat> := [];
      if ShiftModifier in key.modifiers {
        codes := codes + [KEY_LEFTSHIFT];
      }
      if ControlModifier in key.modifiers {
        codes := codes + [KEY_LEFTCTRL];
      }
      if AltModifier in key.modifiers {
        codes := codes + [KEY_LEFTALT];
      }
      if MetaModifier in key.modifiers {
        codes := codes + [KEY_LEFTMETA];
      }
      assert codes == ModifierKeys(key.modifiers);
      codes := codes + [keyCode.value];
      emitted := emitted + KeyEventsOf(codes, pressed, time);
      return true;
    }

    /** pointerEvent: only presses and releases, and only when some mouse button is bound. */
    method PointerEvent(kind: MouseEventType, button: nat, time: nat) returns (consumed: bool)
      modifies this`emitted
      ensures consumed <==> (kind != OtherMouseEvent && mouseMapping != map[]
        && KeySequenceEvents(Lookup(mouseMapping, button), kind == MouseButtonPress, time, toSym, toKeycode).Some?)
      ensures emitted == old(emitted)
        + (if consumed then KeySequenceEvents(Lookup(mouseMapping, button), kind == MouseButtonPress, time, toSym, toKeycode).value else [])
    {
      if kind == OtherMouseEvent {
        return false;
      }
      if mouseMapping == map[] {
        return false;
      }
      consumed := SendKeySequence(Lookup(mouseMapping, button), kind == MouseButtonPress, time);
    }

    /** tabletPadButtonEvent: only when some tablet button is bound. */
    method TabletPadButtonEvent(button: nat, pressed: bool, tablet: string, time: nat) returns (consumed: bool)
      modifies this`emitted
      ensures consumed <==> (tabletMapping != map[]
        && KeySequenceEvents(Lookup(tabletMapping, (tablet, button)), pressed, time, toSym, toKeycode).Some?)
      ensures emitted == old(emitted)
        + (if consumed then KeySequenceEvents(Lookup(tabletMapping, (tablet, button)), pressed, time, toSym, toKeycode).value else [])
    {
      if tabletMapping == map[] {
        return false;
      }
      consumed := SendKeySequence(Lookup(tabletMapping, (tablet, button)), pressed, time);
    }
  }
}
