/** Our hooks in an agent's JSON settings: merging them in and taking them out again. */
module Installs {
  import opened Wrappers

  /** Objects keep the order of their keys. */
  datatype Json =
    | Null
    | Bool(b: bool)
    | Num(n: int)
    | Str(s: string)
    | Arr(items: seq<Json>)
    | Obj(fields: Fields)

  type Fields = seq<(string, Json)>

  type Events = seq<(string, bool)>

  const MARKER := ".mai/bin/mai-probe"

  // Objects.

  /** The position of key `k`, or the length if it is missing. */
  function Find(fs: Fields, k: string): (i: nat)
    ensures i <= |fs| && (i < |fs| ==> fs[i].0 == k)
    ensures forall j | 0 <= j < i :: fs[j].0 != k
  {
    if fs == [] then 0 else if fs[0].0 == k then 0 else 1 + Find(fs[1..], k)
  }

  predicate Has(fs: Fields, k: string) { Find(fs, k) < |fs| }

  function Get(fs: Fields, k: string): Option<Json> {
    if Has(fs, k) then Some(fs[Find(fs, k)].1) else None
  }

  function Put(fs: Fields, k: string, v: Json): Fields {
    if Has(fs, k) then fs[Find(fs, k) := (k, v)] else fs + [(k, v)]
  }

  lemma FindIs(fs: Fields, k: string, i: nat)
    requires i <= |fs| && (i < |fs| ==> fs[i].0 == k) && forall j | 0 <= j < i :: fs[j].0 != k
    ensures Find(fs, k) == i
  {
  }

  lemma PutGet(fs: Fields, k: string, v: Json, q: string)
    ensures Get(Put(fs, k, v), q) == if q == k then Some(v) else Get(fs, q)
    ensures Has(fs, q) ==> Find(Put(fs, k, v), q) == Find(fs, q)
  {
    var after := Put(fs, k, v);
    if q == k {
      FindIs(after, q, Find(fs, k));
    } else if Has(fs, q) {
      FindIs(after, q, Find(fs, q));
    } else {
      FindIs(after, q, |after|);
    }
  }

  lemma PutPut(fs: Fields, k: string, v: Json, w: Json)
    ensures Put(Put(fs, k, v), k, w) == Put(fs, k, w)
    ensures Has(fs, k) ==> Put(fs, k, fs[Find(fs, k)].1) == fs
  {
    FindIs(Put(fs, k, v), k, Find(fs, k));
  }

  // Our hooks in one event's list.

  predicate Contains(s: string, part: string) {
    exists i | 0 <= i <= |s| :: part <= s[i..]
  }

  predicate IsOurs(hook: Json) {
    hook.Obj? && var c := Get(hook.fields, "command"); c.Some? && c.value.Str? && Contains(c.value.s, MARKER)
  }

  /** A hook is ours exactly if its command names the probe's path. */
  lemma IsOursIff(hook: Json)
    ensures IsOurs(hook) <==>
      hook.Obj? && exists i: nat, before, after ::
        && i < |hook.fields| && hook.fields[i] == ("command", Str(before + ".mai/bin/mai-probe" + after))
        && forall j | 0 <= j < i :: hook.fields[j].0 != "command"
  {
    hide Contains;
    if IsOurs(hook) {
      var i := Find(hook.fields, "command");
      var before, after := SplitAtMarker(hook.fields[i].1.s);
      assert hook.fields[i] == ("command", Str(before + ".mai/bin/mai-probe" + after));
    }
    if hook.Obj? {
      if i: nat, before, after :|
        && i < |hook.fields| && hook.fields[i] == ("command", Str(before + ".mai/bin/mai-probe" + after))
        && forall j | 0 <= j < i :: hook.fields[j].0 != "command"
      {
        FindIs(hook.fields, "command", i);
        HoldsMarker(before, after);
      }
    }
  }

  lemma SplitAtMarker(s: string) returns (before: string, after: string)
    requires Contains(s, MARKER)
    ensures s == before + ".mai/bin/mai-probe" + after
  {
    var n :| 0 <= n <= |s| && MARKER <= s[n..];
    var m := n + |MARKER|;
    before, after := s[..n], s[m..];
    assert s[n..m] == MARKER;
    assert s == s[..n] + s[n..m] + s[m..];
  }

  lemma HoldsMarker(before: string, after: string)
    ensures Contains(before + ".mai/bin/mai-probe" + after, MARKER)
  {
    var s := before + ".mai/bin/mai-probe" + after;
    assert s[|before|..] == ".mai/bin/mai-probe" + after;
  }

  /** The hooks of a group, if it has a list of them. */
  function Hooks(group: Json): Option<seq<Json>> {
    if group.Obj? then
      var hs := Get(group.fields, "hooks");
      if hs.Some? && hs.value.Arr? then Some(hs.value.items) else None
    else None
  }

  function Filtered(hs: seq<Json>): (r: seq<Json>)
    ensures |r| <= |hs|
  {
    if hs == [] then []
    else
      var h := hs[|hs| - 1];
      Filtered(hs[..|hs| - 1]) + if IsOurs(h) then [] else [h]
  }

  /** A group without our hooks: none when those were all it had. */
  function StrippedGroup(group: Json): seq<Json> {
    match Hooks(group)
    case None => [group]
    case Some(hs) =>
      var left := Filtered(hs);
      if |left| == |hs| || left != [] then [Obj(Put(group.fields, "hooks", Arr(left)))] else []
  }

  function Stripped(list: seq<Json>): seq<Json> {
    if list == [] then [] else Stripped(list[..|list| - 1]) + StrippedGroup(list[|list| - 1])
  }

  method StripOurs(list: seq<Json>) returns (r: seq<Json>)
    ensures r == Stripped(list)
  {
    r := [];
    for i := 0 to |list|
      invariant r == Stripped(list[..i])
    {
      var group := list[i];
      assert list[..i + 1][..i] == list[..i];
      if Hooks(group).None? {
        r := r + [group];
      } else {
        var hs := Hooks(group).value;
        var left := RetainForeign(hs);
        if |left| == |hs| || left != [] {
          r := r + [Obj(Put(group.fields, "hooks", Arr(left)))];
        }
      }
    }
    assert list[..|list|] == list;
  }

  method RetainForeign(hs: seq<Json>) returns (r: seq<Json>)
    ensures r == Filtered(hs)
  {
    r := [];
    for i := 0 to |hs|
      invariant r == Filtered(hs[..i])
    {
      assert hs[..i + 1][..i] == hs[..i];
      if !IsOurs(hs[i]) {
        r := r + [hs[i]];
      }
    }
    assert hs[..|hs|] == hs;
  }

  function OurHook(command: string): Json { Obj([("type", Str("command")), ("command", Str(command))]) }

  function OurGroup(command: string, matcher: bool): Json {
    Obj([("hooks", Arr([OurHook(command)]))] + if matcher then [("matcher", Str("*"))] else [])
  }

  lemma OursIffMarked(command: string)
    ensures IsOurs(OurHook(command)) <==> Contains(command, MARKER)
  {
    FindIs(OurHook(command).fields, "command", 1);
  }

  lemma OurGroupStripped(command: string, matcher: bool)
    ensures Hooks(OurGroup(command, matcher)) == Some([OurHook(command)])
    ensures StrippedGroup(OurGroup(command, matcher))
         == if Contains(command, MARKER) then [] else [OurGroup(command, matcher)]
  {
    var group := OurGroup(command, matcher);
    var hs := [OurHook(command)];
    FindIs(group.fields, "hooks", 0);
    OursIffMarked(command);
    assert hs[..0] == [];
    assert Filtered(hs) == if IsOurs(OurHook(command)) then [] else hs;
    PutPut(group.fields, "hooks", Null, Null);
  }

  lemma StrippedSnoc(list: seq<Json>, group: Json)
    ensures Stripped(list + [group]) == Stripped(list) + StrippedGroup(group)
  {
    assert (list + [group])[..|list|] == list;
  }

  lemma FilteredSnoc(hs: seq<Json>, h: Json)
    ensures Filtered(hs + [h]) == if IsOurs(h) then Filtered(hs) else Filtered(hs) + [h]
  {
    assert (hs + [h])[..|hs|] == hs;
    assert Filtered(hs) + [] == Filtered(hs);
  }

  /** Every hook that is not ours stays in its place, and ours are gone. */
  lemma {:induction false} FilteredAt(hs: seq<Json>, i: nat)
    requires i < |hs|
    ensures if IsOurs(hs[i]) then Filtered(hs[..i + 1]) == Filtered(hs[..i]) else Filtered(hs[..i]) + [hs[i]] <= Filtered(hs)
    decreases |hs|
  {
    hide IsOurs, Filtered;
    var n := |hs| - 1;
    assert hs[..i + 1] == hs[..i] + [hs[i]] && hs == hs[..n] + [hs[n]];
    FilteredSnoc(hs[..n], hs[n]);
    FilteredSnoc(hs[..i], hs[i]);
    if i < n {
      FilteredAt(hs[..n], i);
      assert hs[..n][..i] == hs[..i];
    } else {
      assert hs[..i + 1] == hs;
    }
  }

  lemma {:induction false} FilteredTwice(hs: seq<Json>)
    ensures Filtered(Filtered(hs)) == Filtered(hs)
    ensures |Filtered(hs)| == |hs| ==> Filtered(hs) == hs
  {
    if hs != [] {
      var n := |hs| - 1;
      assert hs == hs[..n] + [hs[n]];
      FilteredTwice(hs[..n]);
      FilteredSnoc(hs[..n], hs[n]);
      FilteredSnoc(Filtered(hs[..n]), hs[n]);
    }
  }

  lemma StrippedGroupTwice(group: Json)
    ensures Stripped(StrippedGroup(group)) == StrippedGroup(group)
  {
    var once := StrippedGroup(group);
    if once != [] {
      assert once == [once[0]] && once[..0] == [];
      if Hooks(group).Some? {
        var hs := Hooks(group).value;
        FilteredTwice(hs);
        PutGet(group.fields, "hooks", Arr(Filtered(hs)), "hooks");
        PutPut(group.fields, "hooks", Arr(Filtered(hs)), Arr(Filtered(hs)));
      }
    }
  }

  lemma {:induction false} StrippedTwice(list: seq<Json>)
    ensures Stripped(Stripped(list)) == Stripped(list)
  {
    hide Filtered, Put, Get, Hooks;
    if list != [] {
      var n := |list| - 1;
      StrippedTwice(list[..n]);
      StrippedGroupTwice(list[n]);
      var more := StrippedGroup(list[n]);
      if more == [] {
        assert Stripped(list) == Stripped(list[..n]);
      } else {
        StrippedSnoc(Stripped(list[..n]), more[0]);
        assert more == [more[0]] && more[..0] == [];
        assert Stripped([]) + StrippedGroup(more[0]) == StrippedGroup(more[0]);
      }
    }
  }

  // The table of events.

  /** The list of one event: empty when it is missing. */
  function ListOf(table: Fields, event: string): Option<seq<Json>> {
    match Get(table, event)
    case None => Some([])
    case Some(v) => if v.Arr? then Some(v.items) else None
  }

  /** The list of an event once our group is in it. */
  function WithOurs(list: seq<Json>, command: string, matcher: bool): Json {
    Arr(Stripped(list) + [OurGroup(command, matcher)])
  }

  /** The table after the listed events, and whether every one had a list; edits before a failure stay. */
  function MergedTable(table: Fields, events: Events, command: string): (Fields, bool) {
    if events == [] then (table, true)
    else
      var (t, ok) := MergedTable(table, events[..|events| - 1], command);
      var (event, matcher) := events[|events| - 1];
      if ok && ListOf(t, event).Some? then
        (Put(t, event, WithOurs(ListOf(t, event).value, command, matcher)), true)
      else (t, false)
  }

  /** What removing makes of one event. */
  function RemovedField(field: (string, Json)): Fields {
    if !field.1.Arr? then [field]
    else
      var left := Stripped(field.1.items);
      if left == [] then [] else [(field.0, Arr(left))]
  }

  /** What `f` makes of every field, one after the other. */
  function FlatMap<T>(f: ((string, Json)) -> seq<T>, table: Fields): seq<T> {
    if table == [] then [] else FlatMap(f, table[..|table| - 1]) + f(table[|table| - 1])
  }

  function RemovedTable(table: Fields): Fields { FlatMap(RemovedField, table) }

  // Documents.

  datatype Error = NotAnObject | HooksNotAnObject | EventNotAnArray

  function Merged(doc: Json, events: Events, command: string): (Json, Result<(), Error>) {
    if !doc.Obj? then (doc, Err(NotAnObject))
    else
      var hooks := Get(doc.fields, "hooks").GetOr(Obj([]));
      if !hooks.Obj? then (doc, Err(HooksNotAnObject))
      else
        var (table, ok) := MergedTable(hooks.fields, events, command);
        (Obj(Put(doc.fields, "hooks", Obj(table))), if ok then Ok(()) else Err(EventNotAnArray))
  }

  function Removed(doc: Json): (Json, Result<(), Error>) {
    if !doc.Obj? then (doc, Err(NotAnObject))
    else
      match Get(doc.fields, "hooks")
      case None => (doc, Ok(()))
      case Some(Obj(table)) => (Obj(Put(doc.fields, "hooks", Obj(RemovedTable(table)))), Ok(()))
      case Some(_) => (doc, Err(HooksNotAnObject))
  }

  method MergeHooks(doc: Json, events: Events, command: string) returns (r: Json, result: Result<(), Error>)
    ensures (r, result) == Merged(doc, events, command)
  {
    if !doc.Obj? {
      return doc, Err(NotAnObject);
    }
    var hooks := Get(doc.fields, "hooks").GetOr(Obj([]));
    if !hooks.Obj? {
      return doc, Err(HooksNotAnObject);
    }
    var table := hooks.fields;
    for i := 0 to |events|
      invariant MergedTable(hooks.fields, events[..i], command) == (table, true)
    {
      var (event, matcher) := events[i];
      assert events[..i + 1][..i] == events[..i];
      var list := ListOf(table, event);
      if list.None? {
        MergeFails(hooks.fields, events, command, i + 1);
        return Obj(Put(doc.fields, "hooks", Obj(table))), Err(EventNotAnArray);
      }
      var left := StripOurs(list.value);
      table := Put(table, event, Arr(left + [OurGroup(command, matcher)]));
    }
    assert events[..|events|] == events;
    return Obj(Put(doc.fields, "hooks", Obj(table))), Ok(());
  }

  /** A failure ends the merge. */
  lemma {:induction false} MergeFails(table: Fields, events: Events, command: string, n: nat)
    requires n <= |events| && !MergedTable(table, events[..n], command).1
    ensures MergedTable(table, events, command) == MergedTable(table, events[..n], command)
    decreases |events|
  {
    if n < |events| {
      var init := events[..|events| - 1];
      assert init[..n] == events[..n];
      MergeFails(table, init, command, n);
    } else {
      assert events[..n] == events;
    }
  }

  method RemoveHooks(doc: Json) returns (r: Json, result: Result<(), Error>)
    ensures (r, result) == Removed(doc)
  {
    if !doc.Obj? {
      return doc, Err(NotAnObject);
    }
    var hooks := Get(doc.fields, "hooks");
    if hooks.None? {
      return doc, Ok(());
    }
    if !hooks.value.Obj? {
      return doc, Err(HooksNotAnObject);
    }
    var table := hooks.value.fields;
    var stripped := StripValues(table);
    var kept: Fields := [];
    for i := 0 to |stripped|
      invariant kept == RemovedTable(table[..i])
    {
      assert table[..i + 1][..i] == table[..i];
      if !stripped[i].1.Arr? || stripped[i].1.items != [] {
        kept := kept + [stripped[i]];
      }
    }
    assert table[..|table|] == table;
    return Obj(Put(doc.fields, "hooks", Obj(kept))), Ok(());
  }

  method StripValues(table: Fields) returns (r: Fields)
    ensures |r| == |table| && forall j | 0 <= j < |table| :: r[j] == StrippedField(table[j])
  {
    r := [];
    for i := 0 to |table|
      invariant |r| == i
      invariant forall j | 0 <= j < i :: r[j] == StrippedField(table[j])
    {
      var v := table[i].1;
      if v.Arr? {
        var left := StripOurs(v.items);
        v := Arr(left);
      }
      r := r + [(table[i].0, v)];
    }
  }

  function StrippedField(field: (string, Json)): (string, Json) {
    if field.1.Arr? then (field.0, Arr(Stripped(field.1.items))) else field
  }

  // Removing undoes merging.

  lemma {:induction false} WithOursStripped(list: seq<Json>, command: string, matcher: bool)
    requires Contains(command, MARKER)
    ensures Stripped(WithOurs(list, command, matcher).items) == Stripped(list)
  {
    StrippedSnoc(Stripped(list), OurGroup(command, matcher));
    OurGroupStripped(command, matcher);
    StrippedTwice(list);
    assert Stripped(list) + [] == Stripped(list);
  }

  lemma FlatSnoc<T>(f: ((string, Json)) -> seq<T>, table: Fields, field: (string, Json))
    ensures FlatMap(f, table + [field]) == FlatMap(f, table) + f(field)
  {
    assert (table + [field])[..|table|] == table;
  }

  /** Replacing one field by another that `f` treats alike. */
  lemma {:induction false} FlatUpdate<T>(f: ((string, Json)) -> seq<T>, table: Fields, i: nat, field: (string, Json))
    requires i < |table| && f(table[i]) == f(field)
    ensures FlatMap(f, table[i := field]) == FlatMap(f, table)
    decreases |table|
  {
    var n := |table| - 1;
    var init, last := table[..n], table[n];
    assert table == init + [last];
    FlatSnoc(f, init, last);
    if i < n {
      var edited := init[i := field];
      FlatUpdate(f, init, i, field);
      FlatSnoc(f, edited, last);
      assert table[i := field] == edited + [last];
    } else {
      FlatSnoc(f, init, field);
      assert table[i := field] == init + [field];
    }
  }

  /** Putting a value that `f` treats like the one that is there, or like nothing. */
  lemma FlatPut<T>(f: ((string, Json)) -> seq<T>, table: Fields, k: string, v: Json)
    requires f((k, v)) == if Has(table, k) then f(table[Find(table, k)]) else []
    ensures FlatMap(f, Put(table, k, v)) == FlatMap(f, table)
  {
    if Has(table, k) {
      FlatUpdate(f, table, Find(table, k), (k, v));
    } else {
      FlatSnoc(f, table, (k, v));
      assert FlatMap(f, table) + [] == FlatMap(f, table);
    }
  }

  lemma {:induction false} RemovedMergedTable(table: Fields, events: Events, command: string)
    requires Contains(command, MARKER)
    ensures RemovedTable(MergedTable(table, events, command).0) == RemovedTable(table)
  {
    if events != [] {
      var init := events[..|events| - 1];
      RemovedMergedTable(table, init, command);
      var (t, ok) := MergedTable(table, init, command);
      var (event, matcher) := events[|events| - 1];
      if ok && ListOf(t, event).Some? {
        var list := ListOf(t, event).value;
        WithOursStripped(list, command, matcher);
        FlatPut(RemovedField, t, event, WithOurs(list, command, matcher));
      }
    }
  }

  /** Whatever was merged, removing gives what removing without the merge gives, up to an empty table. */
  lemma {:induction false} RemoveUndoesMerge(doc: Json, events: Events, command: string)
    requires Contains(command, MARKER)
    ensures
      var merged := Merged(doc, events, command).0;
      Removed(merged) ==
        if doc.Obj? && !Has(doc.fields, "hooks") then (Obj(doc.fields + [("hooks", Obj([]))]), Ok(()))
        else Removed(doc)
    ensures Removed(Merged(doc, events, command).0) == Removed(doc) <==> !doc.Obj? || Has(doc.fields, "hooks")
  {
    if doc.Obj? {
      var hooks := Get(doc.fields, "hooks").GetOr(Obj([]));
      if hooks.Obj? {
        var table := MergedTable(hooks.fields, events, command).0;
        RemovedMergedTable(hooks.fields, events, command);
        PutGet(doc.fields, "hooks", Obj(table), "hooks");
        PutPut(doc.fields, "hooks", Obj(table), Obj(RemovedTable(table)));
      }
    }
  }

  // Exactly when removing changes nothing.

  predicate NoneOurs(hs: seq<Json>) { forall h | h in hs :: !IsOurs(h) }

  predicate Foreign(group: Json) { Hooks(group).Some? ==> NoneOurs(Hooks(group).value) }

  lemma {:induction false} FilteredSameIff(hs: seq<Json>)
    ensures Filtered(hs) == hs <==> NoneOurs(hs)
    ensures NoneOurs(Filtered(hs))
  {
    if hs != [] {
      var n := |hs| - 1;
      assert hs == hs[..n] + [hs[n]];
      FilteredSameIff(hs[..n]);
      FilteredSnoc(hs[..n], hs[n]);
      FilteredTwice(hs[..n]);
      assert hs[n] in hs;
    }
  }

  lemma StrippedGroupSameIff(group: Json)
    ensures StrippedGroup(group) == [group] <==> Foreign(group)
    ensures |StrippedGroup(group)| <= 1
    ensures forall g | g in StrippedGroup(group) :: Foreign(g)
  {
    if Hooks(group).Some? {
      var hs := Hooks(group).value;
      var v := Arr(Filtered(hs));
      FilteredSameIff(hs);
      PutGet(group.fields, "hooks", v, "hooks");
      PutPut(group.fields, "hooks", v, v);
      assert Hooks(Obj(Put(group.fields, "hooks", v))) == Some(Filtered(hs));
    }
  }

  lemma {:induction false} StrippedSameIff(list: seq<Json>)
    ensures Stripped(list) == list <==> forall g | g in list :: Foreign(g)
    ensures |Stripped(list)| <= |list|
    ensures forall g | g in Stripped(list) :: Foreign(g)
  {
    if list != [] {
      var n := |list| - 1;
      var init, last := Stripped(list[..n]), StrippedGroup(list[n]);
      assert list == list[..n] + [list[n]];
      StrippedSameIff(list[..n]);
      StrippedGroupSameIff(list[n]);
      if Stripped(list) == list {
        assert |init| == n && |last| == 1;
        assert init == list[..n] && last == list[n..];
      }
    }
  }

  /** An event that removal leaves alone: not a list, or a non-empty one without our hooks. */
  predicate Kept(field: (string, Json)) {
    field.1.Arr? ==> field.1.items != [] && forall g | g in field.1.items :: Foreign(g)
  }

  lemma RemovedFieldSameIff(field: (string, Json))
    ensures RemovedField(field) == [field] <==> Kept(field)
    ensures |RemovedField(field)| <= 1
    ensures forall f | f in RemovedField(field) :: f.0 == field.0 && Kept(f)
  {
    if field.1.Arr? {
      StrippedSameIff(field.1.items);
    }
  }

  lemma {:induction false} RemovedTableSameIff(table: Fields)
    ensures RemovedTable(table) == table <==> forall f | f in table :: Kept(f)
    ensures |RemovedTable(table)| <= |table|
    ensures forall f | f in RemovedTable(table) :: Kept(f)
  {
    if table != [] {
      var n := |table| - 1;
      var init, last := RemovedTable(table[..n]), RemovedField(table[n]);
      assert table == table[..n] + [table[n]];
      RemovedTableSameIff(table[..n]);
      RemovedFieldSameIff(table[n]);
      if RemovedTable(table) == table {
        assert |init| == n && |last| == 1;
        assert init == table[..n] && last == table[n..];
      }
    }
  }

  /** The table of events of a document, if it has one. */
  function Table(doc: Json): Option<Fields> {
    if doc.Obj? then
      var hooks := Get(doc.fields, "hooks");
      if hooks.Some? && hooks.value.Obj? then Some(hooks.value.fields) else None
    else None
  }

  /** No event of the document is an empty list or holds a hook of ours. */
  predicate Uninstalled(doc: Json) { Table(doc).Some? ==> forall f | f in Table(doc).value :: Kept(f) }

  /** Removing leaves none of our hooks, and changes a document only if it holds some or an empty list. */
  lemma {:induction false} RemoveSettles(doc: Json)
    ensures Uninstalled(Removed(doc).0)
    ensures Removed(doc).0 == doc <==> Uninstalled(doc)
    ensures Removed(Removed(doc).0) == Removed(doc)
  {
    if Table(doc).Some? {
      var table := Table(doc).value;
      var left := RemovedTable(table);
      RemovedTableSameIff(table);
      RemovedTableSameIff(left);
      PutGet(doc.fields, "hooks", Obj(left), "hooks");
      PutPut(doc.fields, "hooks", Obj(left), Obj(left));
    }
  }

  /** Uninstalling after installing restores exactly the documents that uninstalling leaves alone. */
  lemma {:induction false} UninstallRestoresIff(doc: Json, events: Events, command: string)
    requires Contains(command, MARKER) && Table(doc).Some?
    ensures Removed(Merged(doc, events, command).0).0 == doc <==> Uninstalled(doc)
  {
    RemoveUndoesMerge(doc, events, command);
    RemoveSettles(doc);
  }

  // The user's hooks stay, in order and with their group's other fields.

  /** What the user wrote: a hook with the rest of its group, or a group without hooks. */
  datatype Item = Hook(rest: Fields, hook: Json) | Other(group: Json)

  function Wrapped(rest: Fields, hs: seq<Json>): seq<Item> {
    seq(|hs|, i requires 0 <= i < |hs| => Hook(rest, hs[i]))
  }

  function GroupItems(group: Json): seq<Item> {
    match Hooks(group)
    case None => [Other(group)]
    case Some(hs) =>
      if hs == [] then [Other(group)] else Wrapped(Put(group.fields, "hooks", Null), Filtered(hs))
  }

  function Items(list: seq<Json>): seq<Item> {
    if list == [] then [] else Items(list[..|list| - 1]) + GroupItems(list[|list| - 1])
  }

  function Count(hs: seq<Json>): nat {
    if hs == [] then 0 else Count(hs[..|hs| - 1]) + if IsOurs(hs[|hs| - 1]) then 1 else 0
  }

  /** How many of our hooks a list holds. */
  function CountOurs(list: seq<Json>): nat {
    if list == [] then 0
    else
      var hs := Hooks(list[|list| - 1]).GetOr([]);
      CountOurs(list[..|list| - 1]) + Count(hs)
  }

  lemma ItemsSnoc(list: seq<Json>, group: Json)
    ensures Items(list + [group]) == Items(list) + GroupItems(group)
    ensures CountOurs(list + [group]) == CountOurs(list) + Count(Hooks(group).GetOr([]))
  {
    assert (list + [group])[..|list|] == list;
  }

  lemma {:induction false} CountNone(hs: seq<Json>)
    requires NoneOurs(hs)
    ensures Count(hs) == 0
  {
    if hs != [] {
      CountNone(hs[..|hs| - 1]);
    }
  }

  lemma {:induction false} FilteredGroupItems(group: Json)
    requires Hooks(group).Some?
    requires var hs := Hooks(group).value; |Filtered(hs)| == |hs| || Filtered(hs) != []
    ensures GroupItems(Obj(Put(group.fields, "hooks", Arr(Filtered(Hooks(group).value))))) == GroupItems(group)
  {
    var hs := Hooks(group).value;
    var v := Arr(Filtered(hs));
    FilteredTwice(hs);
    PutGet(group.fields, "hooks", v, "hooks");
    PutPut(group.fields, "hooks", v, Null);
    assert Hooks(Obj(Put(group.fields, "hooks", v))) == Some(Filtered(hs));
  }

  lemma ItemsOfOne(g: Json)
    ensures Items([g]) == GroupItems(g) && CountOurs([g]) == Count(Hooks(g).GetOr([]))
  {
    assert [g][..0] == [];
    assert [] + GroupItems(g) == GroupItems(g);
  }

  lemma {:induction false} StrippedGroupItems(group: Json)
    ensures Items(StrippedGroup(group)) == GroupItems(group)
  {
    var once := StrippedGroup(group);
    if once == [] {
      assert GroupItems(group) == [];
    } else {
      assert once == [once[0]];
      ItemsOfOne(once[0]);
      if Hooks(group).Some? {
        FilteredGroupItems(group);
      }
    }
  }

  lemma {:induction false} StrippedGroupCount(group: Json)
    ensures CountOurs(StrippedGroup(group)) == 0
  {
    var once := StrippedGroup(group);
    StrippedGroupSameIff(group);
    if once != [] {
      assert once == [once[0]] && once[0] in once;
      ItemsOfOne(once[0]);
      CountNone(Hooks(once[0]).GetOr([]));
    }
  }

  lemma ItemsCat(a: seq<Json>, b: seq<Json>)
    requires |b| <= 1
    ensures Items(a + b) == Items(a) + Items(b)
    ensures CountOurs(a + b) == CountOurs(a) + CountOurs(b)
  {
    if b == [] {
      assert a + b == a && Items(a) + [] == Items(a);
    } else {
      assert b == [b[0]];
      ItemsSnoc(a, b[0]);
      ItemsOfOne(b[0]);
    }
  }

  lemma {:induction false} StrippedItems(list: seq<Json>)
    ensures Items(Stripped(list)) == Items(list)
    ensures CountOurs(Stripped(list)) == 0
  {
    if list != [] {
      var n := |list| - 1;
      StrippedItems(list[..n]);
      StrippedGroupItems(list[n]);
      StrippedGroupCount(list[n]);
      StrippedGroupSameIff(list[n]);
      ItemsCat(Stripped(list[..n]), StrippedGroup(list[n]));
    }
  }

  lemma {:induction false} WithOursItems(list: seq<Json>, command: string, matcher: bool)
    requires Contains(command, MARKER)
    ensures Items(WithOurs(list, command, matcher).items) == Items(list)
    ensures CountOurs(WithOurs(list, command, matcher).items) == 1
  {
    var hs := [OurHook(command)];
    StrippedItems(list);
    ItemsSnoc(Stripped(list), OurGroup(command, matcher));
    OurGroupStripped(command, matcher);
    OursIffMarked(command);
    assert hs == [] + hs && hs[..0] == [];
    FilteredSnoc([], OurHook(command));
    assert Count(hs) == 1;
    assert Items(list) + [] == Items(list);
  }

  /** What the user wrote for one event, tagged with its name. */
  function FieldItems(field: (string, Json)): seq<(string, Item)> {
    var items := if field.1.Arr? then Items(field.1.items) else [Other(field.1)];
    seq(|items|, i requires 0 <= i < |items| => (field.0, items[i]))
  }

  function TableItems(table: Fields): seq<(string, Item)> { FlatMap(FieldItems, table) }

  lemma {:induction false} MergedTableItems(table: Fields, events: Events, command: string)
    requires Contains(command, MARKER)
    ensures TableItems(MergedTable(table, events, command).0) == TableItems(table)
  {
    if events != [] {
      var init := events[..|events| - 1];
      MergedTableItems(table, init, command);
      var (t, ok) := MergedTable(table, init, command);
      var (event, matcher) := events[|events| - 1];
      if ok && ListOf(t, event).Some? {
        var list := ListOf(t, event).value;
        WithOursItems(list, command, matcher);
        FlatPut(FieldItems, t, event, WithOurs(list, command, matcher));
      }
    }
  }

  lemma RemovedFieldItems(field: (string, Json))
    ensures FlatMap(FieldItems, RemovedField(field)) == FieldItems(field)
  {
    var once := RemovedField(field);
    if field.1.Arr? {
      StrippedItems(field.1.items);
    }
    if once != [] {
      assert once == [once[0]] && once[..0] == [];
      assert [] + FieldItems(once[0]) == FieldItems(once[0]);
    }
  }

  lemma {:induction false} RemovedTableItems(table: Fields)
    ensures TableItems(RemovedTable(table)) == TableItems(table)
  {
    if table != [] {
      var n := |table| - 1;
      var init, last := RemovedTable(table[..n]), RemovedField(table[n]);
      RemovedTableItems(table[..n]);
      RemovedFieldItems(table[n]);
      if last == [] {
        assert init + last == init;
        assert TableItems(table[..n]) + [] == TableItems(table[..n]);
      } else {
        RemovedFieldSameIff(table[n]);
        assert last == [last[0]] && last[..0] == [];
        FlatSnoc(FieldItems, init, last[0]);
        assert [] + FieldItems(last[0]) == FieldItems(last[0]);
      }
    }
  }

  // An event goes away with its last item.

  lemma {:induction false} ForeignHasItems(group: Json)
    requires Foreign(group)
    ensures GroupItems(group) != []
  {
    if Hooks(group).Some? {
      FilteredSameIff(Hooks(group).value);
    }
  }

  lemma {:induction false} ItemsIffLeft(list: seq<Json>)
    ensures Items(list) == [] <==> Stripped(list) == []
  {
    StrippedItems(list);
    StrippedSameIff(list);
    var left := Stripped(list);
    if left != [] {
      assert left[|left| - 1] in left;
      ForeignHasItems(left[|left| - 1]);
    }
  }

  function KeyOf(field: (string, Json)): seq<string> { [field.0] }

  /** The event's name, unless it is a list in which the user has nothing. */
  function UserKey(field: (string, Json)): seq<string> {
    if field.1.Arr? && Items(field.1.items) == [] then [] else [field.0]
  }

  /** Removal keeps exactly the events in which the user has something, and those that are no lists. */
  lemma {:induction false} EventsKeptIff(table: Fields)
    ensures FlatMap(KeyOf, RemovedTable(table)) == FlatMap(UserKey, table)
  {
    if table != [] {
      var n := |table| - 1;
      var init, last := RemovedTable(table[..n]), RemovedField(table[n]);
      EventsKeptIff(table[..n]);
      if table[n].1.Arr? {
        ItemsIffLeft(table[n].1.items);
      }
      if last == [] {
        assert init + last == init;
        assert FlatMap(UserKey, table[..n]) + [] == FlatMap(UserKey, table[..n]);
      } else {
        RemovedFieldSameIff(table[n]);
        assert last == [last[0]];
        assert last[0] in last;
        FlatSnoc(KeyOf, init, last[0]);
      }
    }
  }

  /** Both edits keep every hook and group of the user's, in order and under its event. */
  lemma {:induction false} UserHooksKept(doc: Json, events: Events, command: string)
    requires Contains(command, MARKER) && Table(doc).Some?
    ensures
      var merged := Table(Merged(doc, events, command).0);
      merged.Some? && TableItems(merged.value) == TableItems(Table(doc).value)
    ensures
      var removed := Table(Removed(doc).0);
      removed.Some? && TableItems(removed.value) == TableItems(Table(doc).value)
  {
    var table := Table(doc).value;
    MergedTableItems(table, events, command);
    RemovedTableItems(table);
    PutGet(doc.fields, "hooks", Obj(MergedTable(table, events, command).0), "hooks");
    PutGet(doc.fields, "hooks", Obj(RemovedTable(table)), "hooks");
  }

  /** Neither edit touches another key of the document. */
  lemma OtherKeysKept(doc: Json, events: Events, command: string, k: string)
    requires doc.Obj? && k != "hooks"
    ensures var merged := Merged(doc, events, command).0; merged.Obj? && Get(merged.fields, k) == Get(doc.fields, k)
    ensures var removed := Removed(doc).0; removed.Obj? && Get(removed.fields, k) == Get(doc.fields, k)
  {
    var hooks := Get(doc.fields, "hooks").GetOr(Obj([]));
    if hooks.Obj? {
      PutGet(doc.fields, "hooks", Obj(MergedTable(hooks.fields, events, command).0), k);
      PutGet(doc.fields, "hooks", Obj(RemovedTable(hooks.fields)), k);
    }
  }

  // What merging installs.

  predicate Listed(events: Events, k: string) { exists e | e in events :: e.0 == k }

  /** The matcher flag of the last entry for `k`. */
  function Matcher(events: Events, k: string): bool {
    if events == [] then false
    else
      var e := events[|events| - 1];
      if e.0 == k then e.1 else Matcher(events[..|events| - 1], k)
  }

  /** The flag is that of the last entry for `k`. */
  lemma {:induction false} MatcherIsLast(events: Events, k: string) returns (i: nat)
    requires Listed(events, k)
    ensures i < |events| && events[i] == (k, Matcher(events, k)) && forall j | i < j < |events| :: events[j].0 != k
  {
    i := |events| - 1;
    if events[i].0 != k {
      assert events == events[..i] + [events[i]];
      i := MatcherIsLast(events[..i], k);
    }
  }

  /** `list` with our group depends only on what stripping leaves of it. */
  lemma WithOursTwice(list: seq<Json>, command: string, a: bool, b: bool)
    requires Contains(command, MARKER)
    ensures WithOurs(WithOurs(list, command, a).items, command, b) == WithOurs(list, command, b)
  {
    WithOursStripped(list, command, a);
  }

  lemma {:induction false} MergedGet(table: Fields, events: Events, command: string, k: string)
    requires Contains(command, MARKER) && MergedTable(table, events, command).1
    ensures Listed(events, k) ==> ListOf(table, k).Some?
    ensures
      Get(MergedTable(table, events, command).0, k) ==
        if Listed(events, k) then Some(WithOurs(ListOf(table, k).value, command, Matcher(events, k))) else Get(table, k)
  {
    if events != [] {
      var n := |events| - 1;
      var (event, matcher) := events[n];
      assert events == events[..n] + [events[n]];
      assert Listed(events, k) <==> Listed(events[..n], k) || event == k;
      MergedGet(table, events[..n], command, k);
      var t := MergedTable(table, events[..n], command).0;
      PutGet(t, event, WithOurs(ListOf(t, event).value, command, matcher), k);
      if event == k && Listed(events[..n], k) {
        WithOursTwice(ListOf(table, k).value, command, Matcher(events[..n], k), matcher);
      }
    }
  }

  /** After a merge every listed event holds exactly one hook of ours, the last entry's, after the user's. */
  lemma {:induction false} MergeInstalls(doc: Json, events: Events, command: string, k: string)
    requires Contains(command, MARKER) && Merged(doc, events, command).1.Ok?
    ensures
      var was := Table(doc).GetOr([]);
      var merged := Table(Merged(doc, events, command).0).GetOr([]);
      var hook := Obj([("type", Str("command")), ("command", Str(command))]);
      var matcher := if Matcher(events, k) then [("matcher", Str("*"))] else [];
      if Listed(events, k) then
        && ListOf(was, k).Some?
        && ListOf(merged, k) == Some(Stripped(ListOf(was, k).value) + [Obj([("hooks", Arr([hook]))] + matcher)])
        && CountOurs(ListOf(merged, k).value) == 1
      else Get(merged, k) == Get(was, k)
  {
    var was := Table(doc).GetOr([]);
    var table := MergedTable(was, events, command).0;
    PutGet(doc.fields, "hooks", Obj(table), "hooks");
    MergedGet(was, events, command, k);
    if Listed(events, k) {
      WithOursItems(ListOf(was, k).value, command, Matcher(events, k));
    }
  }

  /** The merge succeeds exactly when every listed event is a list or missing. */
  lemma {:induction false} MergedOkIff(table: Fields, events: Events, command: string)
    ensures MergedTable(table, events, command).1 <==> forall e | e in events :: ListOf(table, e.0).Some?
    ensures forall k :: ListOf(MergedTable(table, events, command).0, k).Some? <==> ListOf(table, k).Some?
  {
    if events != [] {
      var n := |events| - 1;
      assert events == events[..n] + [events[n]];
      MergedOkIff(table, events[..n], command);
      var (t, ok) := MergedTable(table, events[..n], command);
      var (event, matcher) := events[n];
      if ok && ListOf(t, event).Some? {
        forall k
          ensures ListOf(MergedTable(table, events, command).0, k).Some? <==> ListOf(table, k).Some?
        {
          PutGet(t, event, WithOurs(ListOf(t, event).value, command, matcher), k);
        }
      }
    }
  }

  /** When the merge fails, and how. */
  lemma MergeErrorIff(doc: Json, events: Events, command: string)
    ensures var result := Merged(doc, events, command).1;
      && (result == Err(NotAnObject) <==> !doc.Obj?)
      && (result == Err(HooksNotAnObject) <==> doc.Obj? && Get(doc.fields, "hooks").Some? && !Get(doc.fields, "hooks").value.Obj?)
      && (result == Err(EventNotAnArray) <==>
          && Table(doc).Some?
          && exists e :: e in events && Get(Table(doc).value, e.0).Some? && !Get(Table(doc).value, e.0).value.Arr?)
    ensures !Merged(doc, events, command).1.Ok? && Table(doc).None? ==> Merged(doc, events, command).0 == doc
  {
    if doc.Obj? && Get(doc.fields, "hooks").GetOr(Obj([])).Obj? {
      var table := Table(doc).GetOr([]);
      MergedOkIff(table, events, command);
      if Table(doc).None? {
        assert forall k :: ListOf([], k).Some?;
      }
      if e :| e in events && ListOf(table, e.0).None? {
        assert Get(table, e.0).Some? && !Get(table, e.0).value.Arr?;
      }
    }
  }

  /** A merge that fails at an event has made the edits of the events before it, and no other. */
  lemma {:induction false} FailedMergeIsPartial(doc: Json, events: Events, command: string, n: nat)
    requires Table(doc).Some? && n < |events| && ListOf(Table(doc).value, events[n].0).None?
    requires forall i | 0 <= i < n :: ListOf(Table(doc).value, events[i].0).Some?
    ensures Merged(doc, events[..n], command).1.Ok? && Merged(doc, events, command).0 == Merged(doc, events[..n], command).0
  {
    var table := Table(doc).value;
    MergedOkIff(table, events[..n], command);
    MergedOkIff(table, events[..n + 1], command);
    assert events[n] in events[..n + 1];
    assert events[..n + 1][..n] == events[..n];
    MergeFails(table, events, command, n + 1);
  }

  /** When removing fails, and how; it then changes nothing. */
  lemma RemoveErrorIff(doc: Json)
    ensures var (left, result) := Removed(doc);
      && (result == Err(NotAnObject) <==> !doc.Obj?)
      && (result == Err(HooksNotAnObject) <==> doc.Obj? && Get(doc.fields, "hooks").Some? && !Get(doc.fields, "hooks").value.Obj?)
      && (result == Ok(()) <==> doc.Obj? && (Get(doc.fields, "hooks").None? || Table(doc).Some?))
      && (Table(doc).None? ==> left == doc)
  {
  }

  // Merging twice.

  /** Merging keeps the keys in place and changes only what the listed events' keys find. */
  lemma {:induction false} MergedFrame(table: Fields, events: Events, command: string, i: nat)
    requires i < |table|
    ensures |table| <= |MergedTable(table, events, command).0|
    ensures MergedTable(table, events, command).0[i].0 == table[i].0
    ensures
      || (Listed(events, table[i].0) && Find(table, table[i].0) == i)
      || MergedTable(table, events, command).0[i] == table[i]
  {
    if events != [] {
      var n := |events| - 1;
      assert events == events[..n] + [events[n]];
      MergedFrame(table, events[..n], command, i);
      var t := MergedTable(table, events[..n], command).0;
      if events[n].0 == table[i].0 {
        MergedFind(table, events[..n], command, table[i].0);
      }
    }
  }

  lemma {:induction false} MergedFind(table: Fields, events: Events, command: string, k: string)
    requires Has(table, k)
    ensures Find(MergedTable(table, events, command).0, k) == Find(table, k)
  {
    if events != [] {
      var n := |events| - 1;
      var t := MergedTable(table, events[..n], command).0;
      var (event, matcher) := events[n];
      MergedFind(table, events[..n], command, k);
      assert Has(t, k) by {
        MergedLength(table, events[..n], command);
      }
      if ListOf(t, event).Some? {
        PutGet(t, event, WithOurs(ListOf(t, event).value, command, matcher), k);
      }
    }
  }

  lemma {:induction false} MergedLength(table: Fields, events: Events, command: string)
    ensures |table| <= |MergedTable(table, events, command).0|
    ensures (forall e | e in events :: Has(table, e.0)) ==> |MergedTable(table, events, command).0| == |table|
  {
    if events != [] {
      var n := |events| - 1;
      assert events == events[..n] + [events[n]];
      MergedLength(table, events[..n], command);
      if forall e | e in events :: Has(table, e.0) {
        assert events[n] in events;
        MergedFind(table, events[..n], command, events[n].0);
      }
    }
  }

  lemma {:induction false} MergedAgain(table: Fields, events: Events, command: string)
    requires MergedTable(table, events, command).1
    ensures MergedTable(MergedTable(table, events, command).0, events, command).1
  {
    MergedOkIff(table, events, command);
    MergedOkIff(MergedTable(table, events, command).0, events, command);
  }

  lemma {:induction false} MergedLengthTwice(table: Fields, events: Events, command: string)
    requires Contains(command, MARKER) && MergedTable(table, events, command).1
    ensures var once := MergedTable(table, events, command).0; |MergedTable(once, events, command).0| == |once|
  {
    var once := MergedTable(table, events, command).0;
    forall e | e in events
      ensures Has(once, e.0)
    {
      MergedGet(table, events, command, e.0);
      assert Listed(events, e.0);
    }
    MergedLength(once, events, command);
  }

  lemma {:induction false} MergedTwice(table: Fields, events: Events, command: string)
    requires Contains(command, MARKER) && MergedTable(table, events, command).1
    ensures var once := MergedTable(table, events, command).0; MergedTable(once, events, command) == (once, true)
  {
    var once := MergedTable(table, events, command).0;
    MergedAgain(table, events, command);
    MergedLengthTwice(table, events, command);
    var twice := MergedTable(once, events, command);
    forall i: nat | i < |once|
      ensures twice.0[i] == once[i]
    {
      SameTwice(table, events, command, i);
    }
    assert twice.0 == once && twice.1;
  }

  lemma {:induction false} SameTwice(table: Fields, events: Events, command: string, i: nat)
    requires Contains(command, MARKER) && MergedTable(table, events, command).1
    requires i < |MergedTable(table, events, command).0|
    ensures
      var once := MergedTable(table, events, command).0;
      var twice := MergedTable(once, events, command).0;
      |once| <= |twice| && twice[i] == once[i]
  {
    var once := MergedTable(table, events, command).0;
    var twice := MergedTable(once, events, command).0;
    var k := once[i].0;
    MergedFrame(once, events, command, i);
    if Listed(events, k) && Find(once, k) == i {
      MergedOkIff(table, events, command);
      MergedOkIff(once, events, command);
      MergedFind(once, events, command, k);
      MergedGet(table, events, command, k);
      MergedGet(once, events, command, k);
      WithOursTwice(ListOf(table, k).value, command, Matcher(events, k), Matcher(events, k));
    }
  }

  /** The size of an event's list once our hooks are taken out. */
  function Size(table: Fields, k: string): nat {
    match ListOf(table, k)
    case None => 0
    case Some(list) => |Stripped(list)|
  }

  lemma WithOursSize(list: seq<Json>, command: string, matcher: bool)
    requires !Contains(command, MARKER)
    ensures |Stripped(WithOurs(list, command, matcher).items)| == |Stripped(list)| + 1
  {
    StrippedSnoc(Stripped(list), OurGroup(command, matcher));
    OurGroupStripped(command, matcher);
    StrippedTwice(list);
  }

  /** A hook that is not recognised is never taken out again. */
  lemma {:induction false} UnmarkedGrows(table: Fields, events: Events, command: string, k: string)
    requires !Contains(command, MARKER) && MergedTable(table, events, command).1
    ensures Size(MergedTable(table, events, command).0, k) >= Size(table, k)
    ensures
      events != [] && events[|events| - 1].0 == k ==>
        Size(MergedTable(table, events, command).0, k) > Size(table, k)
  {
    if events != [] {
      var n := |events| - 1;
      var (event, matcher) := events[n];
      UnmarkedGrows(table, events[..n], command, k);
      var t := MergedTable(table, events[..n], command).0;
      var list := ListOf(t, event).value;
      PutGet(t, event, WithOurs(list, command, matcher), k);
      WithOursSize(list, command, matcher);
    }
  }

  /** A merge that succeeded changes nothing the second time, if and only if its command is recognised. */
  lemma {:induction false} MergeIdempotentIff(doc: Json, events: Events, command: string)
    requires Merged(doc, events, command).1.Ok? && events != []
    ensures
      var once := Merged(doc, events, command);
      Merged(once.0, events, command) == once <==> Contains(command, MARKER)
  {
    var was := Table(doc).GetOr([]);
    var once := MergedTable(was, events, command).0;
    var twice := MergedTable(once, events, command);
    PutGet(doc.fields, "hooks", Obj(once), "hooks");
    PutPut(doc.fields, "hooks", Obj(once), Obj(twice.0));
    if Contains(command, MARKER) {
      MergedTwice(was, events, command);
    } else {
      MergedAgain(was, events, command);
      UnmarkedGrows(once, events, command, events[|events| - 1].0);
      PutGet(doc.fields, "hooks", Obj(twice.0), "hooks");
      assert twice.0 != once;
    }
  }
}
