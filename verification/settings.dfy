/** The display settings of `src/settings.cpp`: a name and a colour for each
    of two scales, kept in RAM and saved to a JSON file on the flash file
    system. The file is modelled by what reading it yields. */
module Settings {

  /** The four values, slot 1 and slot 2. */
  datatype Values = Values(name1: string, name2: string, color1: string, color2: string)

  /** The values at power-up and after a reset. */
  const DEFAULTS: Values := Values("Scale 1", "Scale 2", "#0077cc", "#cc5500")

  const NAME1_KEY: string := "name1"
  const NAME2_KEY: string := "name2"
  const COLOR1_KEY: string := "color1"
  const COLOR2_KEY: string := "color2"

  /** The settings file as `settingsInit` finds it: absent, present but not
      openable, present but not valid JSON, or a JSON object with some of
      the four keys. */
  datatype SettingsFile =
    | NoFile
    | Unopenable
    | Garbled
    | Json(fields: map<string, string>)

  /** `settingsGetName(which)`: slot 2 for `which == 2`, slot 1 for any other value. */
  function SelectName(v: Values, which: int): (r: string)
    ensures which == 2 ==> r == v.name2
    ensures which != 2 ==> r == v.name1
  {
    if which == 2 then v.name2 else v.name1
  }

  /** `settingsGetColor(which)`: slot 2 for `which == 2`, slot 1 for any other value. */
  function SelectColor(v: Values, which: int): (r: string)
    ensures which == 2 ==> r == v.color2
    ensures which != 2 ==> r == v.color1
  {
    if which == 2 then v.color2 else v.color1
  }

  /** `settingsSetName(which, name)`: writes slot 2 for `which == 2`, else slot 1. */
  function WithName(v: Values, which: int, name: string): (r: Values)
    ensures which == 2 ==> r == v.(name2 := name)
    ensures which != 2 ==> r == v.(name1 := name)
  {
    if which == 2 then v.(name2 := name) else v.(name1 := name)
  }

  /** `settingsSetColor(which, c)`: writes slot 2 for `which == 2`, else slot 1. */
  function WithColor(v: Values, which: int, c: string): (r: Values)
    ensures which == 2 ==> r == v.(color2 := c)
    ensures which != 2 ==> r == v.(color1 := c)
  {
    if which == 2 then v.(color2 := c) else v.(color1 := c)
  }

  /** Whether two selectors address the same slot. */
  predicate SameSlot(a: int, b: int)
  {
    (a == 2) == (b == 2)
  }

  /** Getting the slot just set returns the new value; the other slot keeps its
      value, and setting a name leaves the colours alone (and vice versa). */
  lemma SetThenGet(v: Values, which: int, other: int, s: string)
    ensures SelectName(WithName(v, which, s), which) == s
    ensures SelectColor(WithColor(v, which, s), which) == s
    ensures !SameSlot(which, other) ==> SelectName(WithName(v, which, s), other) == SelectName(v, other)
    ensures !SameSlot(which, other) ==> SelectColor(WithColor(v, which, s), other) == SelectColor(v, other)
    ensures SelectColor(WithName(v, which, s), other) == SelectColor(v, other)
    ensures SelectName(WithColor(v, which, s), other) == SelectName(v, other)
  {
  }

  /** The JSON object `settingsSave` writes and `settingsAsJson` returns. */
  function Fields(v: Values): (m: map<string, string>)
    ensures m.Keys == {NAME1_KEY, NAME2_KEY, COLOR1_KEY, COLOR2_KEY}
  {
    map[NAME1_KEY := v.name1, NAME2_KEY := v.name2, COLOR1_KEY := v.color1, COLOR2_KEY := v.color2]
  }

  /** `settingsInit` on values `v`: each of the four keys present in the file
      overwrites its value; a missing, unopenable or garbled file changes nothing. */
  function Load(v: Values, file: SettingsFile): (r: Values)
    ensures !file.Json? ==> r == v
    ensures file.Json? ==>
      && r.name1 == (if NAME1_KEY in file.fields then file.fields[NAME1_KEY] else v.name1)
      && r.name2 == (if NAME2_KEY in file.fields then file.fields[NAME2_KEY] else v.name2)
      && r.color1 == (if COLOR1_KEY in file.fields then file.fields[COLOR1_KEY] else v.color1)
      && r.color2 == (if COLOR2_KEY in file.fields then file.fields[COLOR2_KEY] else v.color2)
  {
    if !file.Json? then v
    else
      var f := file.fields;
      var v1 := if NAME1_KEY in f then v.(name1 := f[NAME1_KEY]) else v;
      var v2 := if NAME2_KEY in f then v1.(name2 := f[NAME2_KEY]) else v1;
      var v3 := if COLOR1_KEY in f then v2.(color1 := f[COLOR1_KEY]) else v2;
      if COLOR2_KEY in f then v3.(color2 := f[COLOR2_KEY]) else v3
  }

  /** What was saved is what the next start-up loads, whatever the values in
      RAM were before. */
  lemma SaveThenLoad(saved: Values, before: Values)
    ensures Load(before, Json(Fields(saved))) == saved
  {
  }

  /** A file holding only some of the keys changes only those values. */
  lemma LoadOnlyName2(v: Values, n: string)
    ensures Load(v, Json(map[NAME2_KEY := n])) == v.(name2 := n)
  {
  }

  /** The module's statics: the four values in RAM and the settings file. */
  class SettingsStore {
    var name1: string
    var name2: string
    var color1: string
    var color2: string
    var file: SettingsFile

    function Current(): Values
      reads this
    {
      Values(name1, name2, color1, color2)
    }

    /** The static initialisers: the defaults in RAM, the file as it was left. */
    constructor (file: SettingsFile)
      ensures Current() == DEFAULTS && this.file == file
    {
      name1 := "Scale 1";
      name2 := "Scale 2";
      color1 := "#0077cc";
      color2 := "#cc5500";
      this.file := file;
    }

    /** `settingsInit` */
    method Init()
      modifies this
      ensures Current() == Load(old(Current()), file) && file == old(file)
    {
      if file.NoFile? || file.Unopenable? || file.Garbled? {
        return;
      }
      var doc := file.fields;
      if NAME1_KEY in doc { name1 := doc[NAME1_KEY]; }
      if NAME2_KEY in doc { name2 := doc[NAME2_KEY]; }
      if COLOR1_KEY in doc { color1 := doc[COLOR1_KEY]; }
      if COLOR2_KEY in doc { color2 := doc[COLOR2_KEY]; }
    }

    /** `settingsGetName` */
    function GetName(which: int): (r: string)
      reads this
      ensures r == SelectName(Current(), which)
    {
      if which == 2 then name2 else name1
    }

    /** `settingsGetColor` */
    function GetColor(which: int): (r: string)
      reads this
      ensures r == SelectColor(Current(), which)
    {
      if which == 2 then color2 else color1
    }

    /** `settingsSetName` */
    method SetName(which: int, name: string)
      modifies this
      ensures Current() == WithName(old(Current()), which, name) && file == old(file)
    {
      if which == 2 { name2 := name; } else { name1 := name; }
    }

    /** `settingsSetColor` */
    method SetColor(which: int, c: string)
      modifies this
      ensures Current() == WithColor(old(Current()), which, c) && file == old(file)
    {
      if which == 2 { color2 := c; } else { color1 := c; }
    }

    /** `settingsSave`: `writable` says whether the file can be opened for
        writing; when it cannot, nothing is written and the result is false. */
    method Save(writable: bool) returns (ok: bool)
      modifies this
      ensures ok == writable
      ensures file == if writable then Json(Fields(old(Current()))) else old(file)
      ensures Current() == old(Current())
    {
      if !writable {
        return false;
      }
      file := Json(Fields(Current()));
      ok := true;
    }

    /** `settingsAsJson`: the four values under their keys. */
    method AsJson() returns (doc: map<string, string>)
      ensures doc == Fields(Current())
    {
      doc := map[NAME1_KEY := name1, NAME2_KEY := name2, COLOR1_KEY := color1, COLOR2_KEY := color2];
    }

    /** `settingsResetDefaults`: the defaults in RAM, then saved. */
    method ResetDefaults(writable: bool)
      modifies this
      ensures Current() == DEFAULTS
      ensures file == if writable then Json(Fields(DEFAULTS)) else old(file)
    {
      name1 := "Scale 1";
      name2 := "Scale 2";
      color1 := "#0077cc";
      color2 := "#cc5500";
      var _ := Save(writable);
    }
  }
}
