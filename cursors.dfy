/** The cursor finder of `internal/scraper/media.go` (`next`, `bottom`, `anyc`): the cursor
    for the following page is the value of a `cursorType: Bottom` entry when the page has
    one, and otherwise the first non-empty string under any key that mentions "cursor". */
module Cursors {
  import opened Wrappers
  import opened Strings
  import opened Json

  /** `strings.EqualFold(s, "Bottom")`: none of the letters of "bottom" has a case partner
      outside ASCII, so this is a length-6 ASCII case-insensitive match. */
  predicate IsBottomType(s: string)
  {
    ToLower(s) == "bottom"
  }

  /** The object's own entry, when it is a bottom cursor with a value. */
  function OwnBottom(fs: seq<Field>): string
  {
    if IsBottomType(StrAt(fs, "cursorType")) then StrAt(fs, "value") else []
  }

  /** `bottom`: the object's own entry first, then the children in order. */
  function Bottom(v: Value): string
    decreases v, 1, 0
  {
    match v
    case Object(fs) => if OwnBottom(fs) != [] then OwnBottom(fs) else BottomFields(v, 0)
    case Array(_) => BottomItems(v, 0)
    case _ => []
  }

  function BottomFields(v: Value, i: nat): string
    requires v.Object?
    decreases v, 0, |v.fields| - i
  {
    if i >= |v.fields| then []
    else
      var got := Bottom(v.fields[i].value);
      if got != [] then got else BottomFields(v, i + 1)
  }

  function BottomItems(v: Value, i: nat): string
    requires v.Array?
    decreases v, 0, |v.items| - i
  {
    if i >= |v.items| then []
    else
      var got := Bottom(v.items[i]);
      if got != [] then got else BottomItems(v, i + 1)
  }

  /** `s` is the value of a bottom cursor somewhere in `v` (at `v` or below it). */
  ghost predicate BottomIn(v: Value, s: string)
    decreases v
  {
    match v
    case Object(fs) =>
      (s != [] && OwnBottom(fs) == s) || exists i :: 0 <= i < |fs| && BottomIn(fs[i].value, s)
    case Array(items) => exists i :: 0 <= i < |items| && BottomIn(items[i], s)
    case _ => false
  }

  /** `bottom` finds a bottom cursor exactly when the page holds one, and what it finds is one. */
  lemma {:induction false} BottomCorrect(v: Value)
    ensures Bottom(v) != [] ==> BottomIn(v, Bottom(v))
    ensures (exists s :: BottomIn(v, s)) ==> Bottom(v) != []
    decreases v, 1, 0
  {
    match v
    case Object(fs) =>
      if OwnBottom(fs) == [] {
        BottomFieldsCorrect(v, 0);
        if exists s :: BottomIn(v, s) {
          var s :| BottomIn(v, s);
          var i :| 0 <= i < |fs| && BottomIn(fs[i].value, s);
          assert BottomIn(fs[i].value, s);
        }
      }
    case Array(items) =>
      BottomItemsCorrect(v, 0);
      if exists s :: BottomIn(v, s) {
        var s :| BottomIn(v, s);
        var i :| 0 <= i < |items| && BottomIn(items[i], s);
        assert BottomIn(items[i], s);
      }
    case _ =>
  }

  lemma {:induction false} BottomFieldsCorrect(v: Value, i: nat)
    requires v.Object?
    ensures BottomFields(v, i) != [] ==> exists j :: i <= j < |v.fields| && BottomIn(v.fields[j].value, BottomFields(v, i))
    ensures (exists j, s :: i <= j < |v.fields| && BottomIn(v.fields[j].value, s)) ==> BottomFields(v, i) != []
    decreases v, 0, |v.fields| - i
  {
    if i < |v.fields| {
      BottomCorrect(v.fields[i].value);
      BottomFieldsCorrect(v, i + 1);
      if exists j, s :: i <= j < |v.fields| && BottomIn(v.fields[j].value, s) {
        var j, s :| i <= j < |v.fields| && BottomIn(v.fields[j].value, s);
        if j == i {
          assert exists s :: BottomIn(v.fields[i].value, s);
        }
      }
    }
  }

  lemma {:induction false} BottomItemsCorrect(v: Value, i: nat)
    requires v.Array?
    ensures BottomItems(v, i) != [] ==> exists j :: i <= j < |v.items| && BottomIn(v.items[j], BottomItems(v, i))
    ensures (exists j, s :: i <= j < |v.items| && BottomIn(v.items[j], s)) ==> BottomItems(v, i) != []
    decreases v, 0, |v.items| - i
  {
    if i < |v.items| {
      BottomCorrect(v.items[i]);
      BottomItemsCorrect(v, i + 1);
      if exists j, s :: i <= j < |v.items| && BottomIn(v.items[j], s) {
        var j, s :| i <= j < |v.items| && BottomIn(v.items[j], s);
        if j == i {
          assert exists s :: BottomIn(v.items[i], s);
        }
      }
    }
  }

  /** A key that names a cursor: its lower-cased form contains "cursor". */
  predicate IsCursorKey(k: string)
  {
    Contains(ToLower(k), "cursor")
  }

  /** The first own member (from `i` on) under a cursor key whose value is a non-empty string. */
  function OwnCursor(fs: seq<Field>, i: nat): (r: string)
    decreases |fs| - i
  {
    if i >= |fs| then []
    else if IsCursorKey(fs[i].key) && AsString(fs[i].value) != [] then AsString(fs[i].value)
    else OwnCursor(fs, i + 1)
  }

  lemma {:induction false} OwnCursorCorrect(fs: seq<Field>, i: nat)
    ensures OwnCursor(fs, i) != [] ==>
      exists j :: i <= j < |fs| && IsCursorKey(fs[j].key) && AsString(fs[j].value) == OwnCursor(fs, i)
    ensures OwnCursor(fs, i) == [] ==>
      forall j :: i <= j < |fs| && IsCursorKey(fs[j].key) ==> AsString(fs[j].value) == []
    decreases |fs| - i
  {
    if i < |fs| {
      OwnCursorCorrect(fs, i + 1);
    }
  }

  /** `anyc`: the object's own cursor-named members first, then the children in order. */
  function AnyCursor(v: Value): string
    decreases v, 1, 0
  {
    match v
    case Object(fs) => if OwnCursor(fs, 0) != [] then OwnCursor(fs, 0) else AnyFields(v, 0)
    case Array(_) => AnyItems(v, 0)
    case _ => []
  }

  function AnyFields(v: Value, i: nat): string
    requires v.Object?
    decreases v, 0, |v.fields| - i
  {
    if i >= |v.fields| then []
    else
      var got := AnyCursor(v.fields[i].value);
      if got != [] then got else AnyFields(v, i + 1)
  }

  function AnyItems(v: Value, i: nat): string
    requires v.Array?
    decreases v, 0, |v.items| - i
  {
    if i >= |v.items| then []
    else
      var got := AnyCursor(v.items[i]);
      if got != [] then got else AnyItems(v, i + 1)
  }

  /** `s` is a non-empty string stored under a cursor-named key somewhere in `v`. */
  ghost predicate CursorIn(v: Value, s: string)
    decreases v
  {
    match v
    case Object(fs) =>
      (s != [] && exists j :: 0 <= j < |fs| && IsCursorKey(fs[j].key) && AsString(fs[j].value) == s)
      || exists i :: 0 <= i < |fs| && CursorIn(fs[i].value, s)
    case Array(items) => exists i :: 0 <= i < |items| && CursorIn(items[i], s)
    case _ => false
  }

  /** `anyc` finds a cursor-named string exactly when the page holds one, and what it finds is one. */
  lemma {:induction false} AnyCursorCorrect(v: Value)
    ensures AnyCursor(v) != [] ==> CursorIn(v, AnyCursor(v))
    ensures (exists s :: CursorIn(v, s)) ==> AnyCursor(v) != []
    decreases v, 1, 0
  {
    match v
    case Object(fs) =>
      OwnCursorCorrect(fs, 0);
      if OwnCursor(fs, 0) == [] {
        AnyFieldsCorrect(v, 0);
        if exists s :: CursorIn(v, s) {
          var s :| CursorIn(v, s);
          var i :| 0 <= i < |fs| && CursorIn(fs[i].value, s);
          assert CursorIn(fs[i].value, s);
        }
      }
    case Array(items) =>
      AnyItemsCorrect(v, 0);
      if exists s :: CursorIn(v, s) {
        var s :| CursorIn(v, s);
        var i :| 0 <= i < |items| && CursorIn(items[i], s);
        assert CursorIn(items[i], s);
      }
    case _ =>
  }

  lemma {:induction false} AnyFieldsCorrect(v: Value, i: nat)
    requires v.Object?
    ensures AnyFields(v, i) != [] ==> exists j :: i <= j < |v.fields| && CursorIn(v.fields[j].value, AnyFields(v, i))
    ensures (exists j, s :: i <= j < |v.fields| && CursorIn(v.fields[j].value, s)) ==> AnyFields(v, i) != []
    decreases v, 0, |v.fields| - i
  {
    if i < |v.fields| {
      AnyCursorCorrect(v.fields[i].value);
      AnyFieldsCorrect(v, i + 1);
      if exists j, s :: i <= j < |v.fields| && CursorIn(v.fields[j].value, s) {
        var j, s :| i <= j < |v.fields| && CursorIn(v.fields[j].value, s);
        if j == i {
          assert exists s :: CursorIn(v.fields[i].value, s);
        }
      }
    }
  }

  lemma {:induction false} AnyItemsCorrect(v: Value, i: nat)
    requires v.Array?
    ensures AnyItems(v, i) != [] ==> exists j :: i <= j < |v.items| && CursorIn(v.items[j], AnyItems(v, i))
    ensures (exists j, s :: i <= j < |v.items| && CursorIn(v.items[j], s)) ==> AnyItems(v, i) != []
    decreases v, 0, |v.items| - i
  {
    if i < |v.items| {
      AnyCursorCorrect(v.items[i]);
      AnyItemsCorrect(v, i + 1);
      if exists j, s :: i <= j < |v.items| && CursorIn(v.items[j], s) {
        var j, s :| i <= j < |v.items| && CursorIn(v.items[j], s);
        if j == i {
          assert exists s :: CursorIn(v.items[i], s);
        }
      }
    }
  }

  /** `next` on a decoded page (a page that does not decode never reaches it in the crawl). */
  function Next(v: Value): string
  {
    if Bottom(v) != [] then Bottom(v) else AnyCursor(v)
  }

  /** `next` prefers a bottom cursor: when the page holds one, the result is one; only when it
      holds none does it fall back to a cursor-named string; and it is "" only when the page
      holds neither. */
  lemma NextPrefersBottom(v: Value)
    ensures (exists s :: BottomIn(v, s)) ==> BottomIn(v, Next(v))
    ensures (forall s :: !BottomIn(v, s)) ==> Next(v) == AnyCursor(v)
    ensures Next(v) != [] ==> BottomIn(v, Next(v)) || CursorIn(v, Next(v))
    ensures Next(v) == [] <==> (forall s :: !BottomIn(v, s)) && (forall s :: !CursorIn(v, s))
  {
    BottomCorrect(v);
    AnyCursorCorrect(v);
  }
}
