/** Room themes and icons (app/pages/game.tsx): `ROOM_THEMES`, `getRoomTheme` and
    `getRoomIcon`. Both helpers index a plain JavaScript object literal with a category
    name and fall back to a default when the lookup is falsy. */
module Themes {
  import opened Js
  import opened Colors

  /** One entry of `ROOM_THEMES`; the background image asset is not modelled. */
  datatype Theme = Theme(icon: string, color: string, secondaryColor: string, decorations: seq<string>)

  const WorkTheme: Theme := Theme("briefcase", "#4A6572", "#344955", ["desktop", "laptop", "books"])
  const StudyTheme: Theme := Theme("book", "#5B7DB1", "#3A4F7A", ["book", "graduation-cap", "pencil-alt"])
  const WorkoutTheme: Theme := Theme("futbol", "#FFB74D", "#FF9800", ["basketball-ball", "volleyball-ball", "trophy"])
  const DefaultTheme: Theme := Theme("star", "#9575CD", "#673AB7", [])

  /** `ROOM_THEMES`: the entries that are not commented out. */
  const RoomThemes: map<string, Theme> :=
    map["work" := WorkTheme, "study" := StudyTheme, "workout" := WorkoutTheme, "default" := DefaultTheme]

  /** The `icons` table inside `getRoomIcon`. */
  const RoomIcons: map<string, string> :=
    map["work" := "briefcase", "study" := "book", "workout" := "running"]

  const DefaultIcon: string := "star"

  /** `getRoomTheme(name)`: the theme stored under the lower-cased name, else `default`. */
  function RoomTheme(categoryName: string): (t: Theme)
    ensures t in RoomThemes.Values
    ensures ToLowerCase(categoryName) in RoomThemes ==> t == RoomThemes[ToLowerCase(categoryName)]
    ensures ToLowerCase(categoryName) !in RoomThemes ==> t == DefaultTheme
  {
    var key := ToLowerCase(categoryName);
    if key in RoomThemes then RoomThemes[key] else RoomThemes["default"]
  }

  /** `getRoomIcon(name)`: the icon stored under the exact name, else `"star"`. */
  function RoomIcon(categoryName: string): (icon: string)
    ensures icon in RoomIcons.Values || icon == DefaultIcon
    ensures categoryName in RoomIcons ==> icon == RoomIcons[categoryName]
    ensures categoryName !in RoomIcons ==> icon == DefaultIcon
  {
    if categoryName in RoomIcons then RoomIcons[categoryName] else DefaultIcon
  }

  /** Names that differ only in letter case get the same theme. */
  lemma RoomThemeIgnoresCase(a: string, b: string)
    requires ToLowerCase(a) == ToLowerCase(b)
    ensures RoomTheme(a) == RoomTheme(b)
  {
  }

  /** The theme depends only on the lower-cased key: looking up a name that is already
      lower case gives the same theme as looking up the original. */
  lemma RoomThemeOfLowered(categoryName: string)
    ensures RoomTheme(ToLowerCase(categoryName)) == RoomTheme(categoryName)
  {
    ToLowerCaseIdempotent(categoryName);
    RoomThemeIgnoresCase(ToLowerCase(categoryName), categoryName);
  }

  /** A room named in any mix of cases of "Work", "Study" or "Workout" gets that theme. */
  lemma RoomThemeNamed()
    ensures RoomTheme("Work") == WorkTheme && RoomTheme("STUDY") == StudyTheme
    ensures RoomTheme("WorkOut") == WorkoutTheme
    ensures RoomTheme("Health") == DefaultTheme && RoomTheme("") == DefaultTheme
  {
    assert ToLowerCase("Work") == "work";
    assert ToLowerCase("STUDY") == "study";
    assert ToLowerCase("WorkOut") == "workout";
    assert ToLowerCase("Health") == "health";
  }

  /** The icon lookup is case-sensitive: only the exact lower-case keys have icons. */
  lemma RoomIconIsCaseSensitive()
    ensures RoomIcon("work") == "briefcase" && RoomIcon("Work") == DefaultIcon
    ensures RoomIcon("workout") == "running" && RoomIcon("WORKOUT") == DefaultIcon
  {
  }

  /** A name that is not already all lower case never has an icon, while its theme is
      looked up case-insensitively. */
  lemma RoomIconNeedsLowerCase(categoryName: string)
    requires ToLowerCase(categoryName) != categoryName
    ensures RoomIcon(categoryName) == DefaultIcon
  {
    forall k | k in RoomIcons ensures ToLowerCase(k) == k {
      assert k == "work" || k == "study" || k == "workout";
    }
  }

  /** Every theme colour is one that `hexToRgb` accepts, so for the intended lookup
      `RoomTheme` the room panel is never drawn in the fallback black. */
  lemma ThemeColorsParse(categoryName: string)
    ensures IsHexColor(RoomTheme(categoryName).color)
    ensures HexToRgb(RoomTheme(categoryName).color) != Black
  {
  }

  /** The panel colour of the work room is (74, 101, 114). */
  lemma WorkPanelColor()
    ensures HexToRgb(RoomTheme("work").color) == Rgb(74, 101, 114)
  {
    assert ToLowerCase("work") == "work";
    assert RoomTheme("work") == WorkTheme;
    assert IsHexColor(WorkTheme.color);
    var d := Digits(WorkTheme.color);
    assert d == "4A6572";
    assert ParseByte(d[0], d[1]) == 74;
    assert ParseByte(d[2], d[3]) == 101;
    assert ParseByte(d[4], d[5]) == 114;
  }

  /* ---- Property lookup on a plain object, as JavaScript performs it ----

     `obj[key]` on an object literal also finds the members every object inherits from
     `Object.prototype`. Those are functions (or, for `__proto__`, the prototype object
     itself) and are truthy, so `obj[key] || fallback` returns them instead of the
     fallback. */

  datatype JsValue<V> = Own(value: V) | Inherited(member: string) | Undefined

  /** The keys of `Object.prototype`. */
  const ObjectPrototypeMembers: set<string> :=
    {"constructor", "__proto__", "hasOwnProperty", "isPrototypeOf", "propertyIsEnumerable",
     "toLocaleString", "toString", "valueOf", "__defineGetter__", "__defineSetter__",
     "__lookupGetter__", "__lookupSetter__"}

  /** `obj[key]` for an object literal whose own properties are `obj`. */
  function GetProperty<V>(obj: map<string, V>, key: string): (v: JsValue<V>)
    ensures v.Own? <==> key in obj
    ensures v.Own? ==> v.value == obj[key]
    ensures v.Inherited? <==> key !in obj && key in ObjectPrototypeMembers
  {
    if key in obj then Own(obj[key])
    else if key in ObjectPrototypeMembers then Inherited(key)
    else Undefined
  }

  /** `obj[key] || fallback`, when every own value is truthy. */
  function OrDefault<V>(v: JsValue<V>, fallback: V): (r: JsValue<V>)
    ensures !r.Undefined?
    ensures v.Undefined? ==> r == Own(fallback)
    ensures !v.Undefined? ==> r == v
  {
    if v.Undefined? then Own(fallback) else v
  }

  /** `getRoomIcon` as written: `icons[categoryName] || "star"`. */
  function RoomIconAsWritten(categoryName: string): (v: JsValue<string>)
    ensures v.Own? ==> v.value == RoomIcon(categoryName)
  {
    OrDefault(GetProperty(RoomIcons, categoryName), DefaultIcon)
  }

  /** `getRoomTheme` as written: `ROOM_THEMES[categoryName.toLowerCase()] || ROOM_THEMES.default`. */
  function RoomThemeAsWritten(categoryName: string): (v: JsValue<Theme>)
    ensures v.Own? ==> v.value == RoomTheme(categoryName)
  {
    OrDefault(GetProperty(RoomThemes, ToLowerCase(categoryName)), RoomThemes["default"])
  }

  /** A category called "toString" (or any other `Object.prototype` member) gets a
      function instead of an icon name, and one called "Constructor" gets the `Object`
      constructor instead of a theme. */
  lemma PrototypeMembersLeak()
    ensures RoomIconAsWritten("toString") == Inherited("toString")
    ensures RoomIconAsWritten("constructor") == Inherited("constructor")
    ensures RoomThemeAsWritten("Constructor") == Inherited("constructor")
  {
    assert ToLowerCase("Constructor") == "constructor";
  }

  /** Away from those names, the written lookups and the intended ones agree: the result
      is an own entry or the default, exactly as `RoomIcon` and `RoomTheme` state. */
  lemma AsWrittenAgreesElsewhere(categoryName: string)
    requires categoryName !in ObjectPrototypeMembers
    requires ToLowerCase(categoryName) !in ObjectPrototypeMembers
    ensures RoomIconAsWritten(categoryName) == Own(RoomIcon(categoryName))
    ensures RoomThemeAsWritten(categoryName) == Own(RoomTheme(categoryName))
  {
  }
}
