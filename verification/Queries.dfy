/** The SQL builder: conditions and assignments become text with numbered placeholders and a list of
    values bound to them. */
module Queries {
  import opened Wrappers

  datatype Types =
    | Uuid(id: nat)
    | Text(text: string)
    | OptText(optText: Option<string>)
    | OptUuid(optId: Option<nat>)
    | UserState(state: nat)
    | Role(role: nat)
    | VecAnyPermission(permissions: seq<nat>)
    | VecContainsPermission(permissions: seq<nat>)
    | VecOverlapsPermission(permissions: seq<nat>)

  /** The text, word by word. */
  datatype Word =
    | SelectFrom(table: string)
    | Update(table: string)
    | Set
    | Where
    | And
    | Comma
    | GroupBy
    | Column(name: string)
    | Equals
    | EqualsAny
    | Placeholder(n: nat)

  // ---------- what a text with bound values means ----------

  /** `column = value`, or `column = ANY(value)`. */
  datatype Condition = Condition(column: string, isAny: bool, value: Types)

  datatype Select = Select(table: string, conditions: seq<Condition>, groups: seq<string>)

  datatype Change = Change(table: string, assignments: seq<Condition>, condition: Option<Condition>)

  /** One comparison: a column, an operator and a placeholder that is bound. */
  function ReadComparison(text: seq<Word>, binds: seq<Types>): Option<Condition> {
    if |text| >= 3 && text[0].Column? && (text[1].Equals? || text[1].EqualsAny?) && text[2].Placeholder?
       && 1 <= text[2].n <= |binds|
    then Some(Condition(text[0].name, text[1].EqualsAny?, binds[text[2].n - 1]))
    else None
  }

  /** Comparisons joined by `joint`, the first one after `start`; what follows is handed back. */
  function ReadComparisons(text: seq<Word>, binds: seq<Types>, start: Word, joint: Word): Option<(seq<Condition>, seq<Word>)>
    decreases |text|
  {
    if text == [] || text[0] != start then Some(([], text))
    else
      match ReadComparison(text[1..], binds)
      case None => None
      case Some(c) =>
        match ReadComparisons(text[4..], binds, joint, joint)
        case None => None
        case Some((rest, tail)) => Some(([c] + rest, tail))
  }

  function ReadColumns(text: seq<Word>): Option<seq<string>> {
    if text == [] then Some([])
    else if !text[0].Column? then None
    else match ReadColumns(text[1..])
      case None => None
      case Some(rest) => Some([text[0].name] + rest)
  }

  function ReadSelect(text: seq<Word>, binds: seq<Types>): Option<Select> {
    if text == [] || !text[0].SelectFrom? then None
    else match ReadComparisons(text[1..], binds, Where, And)
      case None => None
      case Some((conditions, tail)) =>
        if tail == [] then Some(Select(text[0].table, conditions, []))
        else if !tail[0].GroupBy? then None
        else match ReadColumns(tail[1..])
          case None => None
          case Some(groups) => Some(Select(text[0].table, conditions, groups))
  }

  /** UPDATE table SET a, b, ... and at most one WHERE, whose comparisons are joined by AND. */
  function ReadUpdate(text: seq<Word>, binds: seq<Types>): Option<Change> {
    if |text| < 1 || !text[0].Update? then None
    else match ReadComparisons(text[1..], binds, Set, Comma)
      case None => None
      case Some((assignments, tail)) =>
        if assignments == [] || exists i :: 0 <= i < |assignments| && assignments[i].isAny then None
        else match ReadComparisons(tail, binds, Where, And)
          case None => None
          case Some((conditions, rest)) =>
            if rest != [] || |conditions| > 1 then None
            else Some(Change(text[0].table, assignments, if conditions == [] then None else Some(conditions[0])))
  }

  // ---------- reading back what is written ----------

  function Comparison(c: Condition, n: nat): seq<Word> {
    [Column(c.column), if c.isAny then EqualsAny else Equals, Placeholder(n)]
  }

  /** Comparisons with placeholders counting up from `from`. */
  function Comparisons(conditions: seq<Condition>, from: nat, start: Word, joint: Word): seq<Word> {
    if conditions == [] then []
    else [start] + Comparison(conditions[0], from) + Comparisons(conditions[1..], from + 1, joint, joint)
  }

  function Values(conditions: seq<Condition>): seq<Types> {
    seq(|conditions|, i requires 0 <= i < |conditions| => conditions[i].value)
  }

  lemma Regroup<T>(a: seq<T>, b: seq<T>, c: seq<T>)
    ensures a + b + c == a + (b + c)
  {
  }

  /** A comparison is read with its own value ... */
  lemma ReadsOne(c: Condition, n: nat, start: Word, more: seq<Word>, binds: seq<Types>)
    requires 1 <= n <= |binds| && binds[n - 1] == c.value
    ensures var text := [start] + Comparison(c, n) + more;
            text[0] == start && text[4..] == more && ReadComparison(text[1..], binds) == Some(c)
  {
    var text := [start] + Comparison(c, n) + more;
    assert text[1..][0] == text[1] && text[1..][1] == text[2] && text[1..][2] == text[3];
  }

  /** ... and then what follows it. */
  lemma ReadsOn(text: seq<Word>, c: Condition, start: Word, joint: Word, more: seq<Word>, binds: seq<Types>, rest: seq<Condition>, tail: seq<Word>)
    requires |text| >= 4 && text[0] == start && ReadComparison(text[1..], binds) == Some(c) && text[4..] == more
    requires ReadComparisons(more, binds, joint, joint) == Some((rest, tail))
    ensures ReadComparisons(text, binds, start, joint) == Some(([c] + rest, tail))
  {
  }

  /** From the `from`-th on the bound values are those of the conditions. */
  ghost predicate Bound(conditions: seq<Condition>, from: nat, binds: seq<Types>) {
    && 1 <= from && from - 1 + |conditions| <= |binds|
    && forall i :: 0 <= i < |conditions| ==> binds[from - 1 + i] == conditions[i].value
  }

  lemma BoundRest(conditions: seq<Condition>, from: nat, binds: seq<Types>)
    requires conditions != [] && Bound(conditions, from, binds)
    ensures Bound(conditions[1..], from + 1, binds) && binds[from - 1] == conditions[0].value
  {
    assert binds[from - 1 + 0] == conditions[0].value;
    forall i | 0 <= i < |conditions| - 1
      ensures binds[from + i] == conditions[1..][i].value
    {
      assert binds[from - 1 + (i + 1)] == conditions[i + 1].value;
    }
  }

  /** Written comparisons are read back one by one, each with its own value. */
  lemma {:induction false} ReadsComparisons(conditions: seq<Condition>, from: nat, start: Word, joint: Word, tail: seq<Word>, binds: seq<Types>)
    requires Bound(conditions, from, binds)
    requires tail == [] || (tail[0] != joint && (conditions == [] ==> tail[0] != start))
    ensures ReadComparisons(Comparisons(conditions, from, start, joint) + tail, binds, start, joint) == Some((conditions, tail))
  {
    if conditions == [] {
      assert Comparisons(conditions, from, start, joint) + tail == tail;
    } else {
      var c, rest := conditions[0], conditions[1..];
      var written := Comparisons(rest, from + 1, joint, joint);
      BoundRest(conditions, from, binds);
      ReadsComparisons(rest, from + 1, joint, joint, tail, binds);
      ReadsOne(c, from, start, written + tail, binds);
      ReadsOn([start] + Comparison(c, from) + (written + tail), c, start, joint, written + tail, binds, rest, tail);
      Regroup([start] + Comparison(c, from), written, tail);
      assert conditions == [c] + rest;
    }
  }

  lemma {:induction false} ComparisonsAppend(conditions: seq<Condition>, c: Condition, from: nat, start: Word, joint: Word)
    ensures Comparisons(conditions + [c], from, start, joint) ==
            Comparisons(conditions, from, start, joint) +
            ([if conditions == [] then start else joint] + Comparison(c, from + |conditions|))
  {
    if conditions == [] {
      assert (conditions + [c])[1..] == [];
    } else {
      assert (conditions + [c])[1..] == conditions[1..] + [c];
      ComparisonsAppend(conditions[1..], c, from + 1, joint, joint);
      Regroup([start] + Comparison(conditions[0], from), Comparisons(conditions[1..], from + 1, joint, joint),
              [joint] + Comparison(c, from + |conditions|));
    }
  }

  /** A text grows by one comparison at a time. */
  lemma TextGrows(head: seq<Word>, conditions: seq<Condition>, c: Condition, start: Word, joint: Word)
    ensures head + Comparisons(conditions + [c], 1, start, joint) ==
            head + Comparisons(conditions, 1, start, joint) + [if conditions == [] then start else joint] + Comparison(c, 1 + |conditions|)
    ensures Values(conditions + [c]) == Values(conditions) + [c.value]
  {
    var written, word := Comparisons(conditions, 1, start, joint), [if conditions == [] then start else joint];
    ComparisonsAppend(conditions, c, 1, start, joint);
    Regroup(head, written, word + Comparison(c, 1 + |conditions|));
    Regroup(head + written, word, Comparison(c, 1 + |conditions|));
  }

  function Columns(names: seq<string>): seq<Word> {
    seq(|names|, i requires 0 <= i < |names| => Column(names[i]))
  }

  lemma {:induction false} ReadsColumns(names: seq<string>)
    ensures ReadColumns(Columns(names)) == Some(names)
  {
    if names != [] {
      assert Columns(names)[1..] == Columns(names[1..]);
      ReadsColumns(names[1..]);
      assert names == [names[0]] + names[1..];
    }
  }

  lemma {:induction false} ReadsSelect(table: string, conditions: seq<Condition>, names: seq<string>, text: seq<Word>, binds: seq<Types>)
    requires text == [SelectFrom(table)] + Comparisons(conditions, 1, Where, And) + if names == [] then [] else [GroupBy] + Columns(names)
    requires binds == Values(conditions)
    ensures ReadSelect(text, binds) == Some(Select(table, conditions, names))
  {
    var tail := if names == [] then [] else [GroupBy] + Columns(names);
    assert text[1..] == Comparisons(conditions, 1, Where, And) + tail;
    ReadsComparisons(conditions, 1, Where, And, tail, binds);
    if names != [] {
      assert tail[1..] == Columns(names);
      ReadsColumns(names);
    }
  }

  /** The condition a map entry stands for; only a permission list makes an ANY, where `any` allows it. */
  function Stands(column: string, value: Types, any: bool): Condition {
    Condition(column, any && value.VecAnyPermission?, value)
  }

  /** The conditions are those of the map, each once, in some order; permission lists are matched by ANY and
      everything else by equality, or everything by equality. */
  ghost predicate Lists(conditions: seq<Condition>, m: map<string, Types>, any: bool) {
    && |conditions| == |m|
    && forall c :: c in conditions <==>
         c.column in m && c.value == m[c.column] && (c.isAny <==> any && c.value.VecAnyPermission?)
  }

  /** The order in which a hash map is walked is arbitrary. */
  method Walk(m: map<string, Types>, any: bool) returns (conditions: seq<Condition>)
    ensures Lists(conditions, m, any)
  {
    conditions := [];
    var left := m.Keys;
    while left != {}
      invariant left <= m.Keys
      invariant |conditions| + |left| == |m|
      invariant forall c :: c in conditions <==> c.column in m && c.column !in left && c == Stands(c.column, m[c.column], any)
    {
      var k :| k in left;
      conditions := conditions + [Stands(k, m[k], any)];
      left := left - {k};
    }
  }

  class QueryOwn {
    const table: string
    var wheres: Option<map<string, Types>>
    var groups: set<string>

    constructor (table: string)
      ensures this.table == table && Conditions() == map[] && groups == {}
    {
      this.table, wheres, groups := table, None, {};
    }

    function Conditions(): map<string, Types>
      reads this
    {
      if wheres.Some? then wheres.value else map[]
    }

    method Wh(column: string, value: Types)
      modifies this
      ensures Conditions() == old(Conditions())[column := value] && groups == old(groups)
    {
      if wheres.None? {
        wheres := Some(map[column := value]);
      } else {
        wheres := Some(wheres.value[column := value]);
      }
    }

    method WhVecAny(column: string, permissions: seq<nat>)
      modifies this
      ensures Conditions() == old(Conditions())[column := VecAnyPermission(permissions)] && groups == old(groups)
    {
      Wh(column, VecAnyPermission(permissions));
    }

    method Group(column: string)
      modifies this
      ensures Conditions() == old(Conditions()) && groups == old(groups) + {column}
    {
      groups := groups + {column};
    }

    /** The text, read with its values, is a SELECT of exactly the builder's conditions and groups; the
        builder is empty afterwards. */
    method Build() returns (text: seq<Word>, binds: seq<Types>)
      modifies this
      ensures var meaning := ReadSelect(text, binds);
              && meaning.Some? && meaning.value.table == table
              && Lists(meaning.value.conditions, old(Conditions()), true)
              && (forall x :: x in meaning.value.groups <==> x in old(groups))
              && |meaning.value.groups| == |old(groups)|
      ensures |binds| == |old(Conditions())|
      ensures Conditions() == map[] && groups == {}
    {
      text, binds := [SelectFrom(table)], [];
      var conditions: seq<Condition> := [];
      if wheres.Some? {
        conditions := Walk(wheres.value, true);
        wheres := None;
      }
      var first := true;
      var n := 1;
      ghost var seen: seq<Condition> := [];
      for i := 0 to |conditions|
        invariant seen == conditions[..i]
        invariant n == i + 1 && (first <==> i == 0)
        invariant text == [SelectFrom(table)] + Comparisons(seen, 1, Where, And)
        invariant binds == Values(seen)
        invariant wheres == None && groups == old(groups)
      {
        var c := conditions[i];
        TextGrows([SelectFrom(table)], seen, c, Where, And);
        if first {
          first := false;
          text := text + [Where];
        } else {
          text := text + [And];
        }
        text := text + [Column(c.column), if c.value.VecAnyPermission? then EqualsAny else Equals, Placeholder(n)];
        binds := binds + [c.value];
        n := n + 1;
        seen := seen + [c];
      }
      assert seen == conditions;
      ghost var names: seq<string> := [];
      if groups != {} {
        var list := Drain(groups);
        groups := {};
        names := list;
        text := text + [GroupBy] + Columns(list);
      }
      ReadsSelect(table, conditions, names, text, binds);
    }

    method Drain(s: set<string>) returns (list: seq<string>)
      ensures (forall x :: x in list <==> x in s) && |list| == |s|
    {
      list := [];
      var left := s;
      while left != {}
        invariant left <= s
        invariant forall x :: x in list <==> x in s - left
        invariant |list| + |left| == |s|
      {
        var x :| x in left;
        list := list + [x];
        left := left - {x};
      }
    }
  }

  type Entry = (string, Types)

  /** Of several values given for a column the last one counts. */
  ghost function Called(calls: seq<Entry>): map<string, Types> {
    if calls == [] then map[]
    else Called(calls[..|calls| - 1])[calls[|calls| - 1].0 := calls[|calls| - 1].1]
  }

  lemma {:induction false} LastValueCounts(calls: seq<Entry>, column: string)
    ensures column in Called(calls) <==> exists i :: 0 <= i < |calls| && calls[i].0 == column
    ensures column in Called(calls) ==>
              exists i :: 0 <= i < |calls| && calls[i] == (column, Called(calls)[column])
                          && forall j :: i < j < |calls| ==> calls[j].0 != column
  {
    if calls != [] {
      var front, last := calls[..|calls| - 1], calls[|calls| - 1];
      LastValueCounts(front, column);
      assert calls[|calls| - 1] == last;
      if last.0 != column && column in Called(front) {
        var i :| 0 <= i < |front| && front[i] == (column, Called(front)[column])
                 && forall j :: i < j < |front| ==> front[j].0 != column;
        assert calls[i] == front[i];
      }
      if i :| 0 <= i < |calls| && calls[i].0 == column {
        if i < |front| {
          assert front[i].0 == column;
        }
      }
    }
  }

  class UpdateOwn {
    const table: string
    var text: seq<Word>
    var wheres: map<string, Types>
    var items: seq<Types>
    /** The assignments of the latest From. */
    ghost var settings: seq<Condition>

    constructor (table: string)
      ensures this.table == table && text == [] && wheres == map[] && items == []
    {
      this.table, text, wheres, items, settings := table, [], map[], [], [];
    }

    /** The text assigns the columns of `settings`, and there are values for all of them. */
    ghost predicate Written()
      reads this
    {
      && (forall i :: 0 <= i < |settings| ==> !settings[i].isAny)
      && text == [Update(table)] + Comparisons(settings, 1, Set, Comma) && |settings| <= |items|
    }

    /** Text and values belong together. */
    ghost predicate Aligned()
      reads this
    {
      Written() && items == Values(settings)
    }

    /** Text and values belong together afterwards exactly if there were no values before. */
    method From(m: map<string, Types>)
      modifies this
      ensures Lists(settings, m, false) && wheres == old(wheres)
      ensures Written() && items == old(items) + Values(settings)
      ensures Aligned() <==> old(items) == []
    {
      text := [Update(table)];
      var list := Walk(m, false);
      settings := list;
      var count := 1;
      ghost var seen: seq<Condition> := [];
      for i := 0 to |list|
        invariant seen == list[..i]
        invariant count == i + 1 && wheres == old(wheres) && settings == list
        invariant text == [Update(table)] + Comparisons(seen, 1, Set, Comma)
        invariant items == old(items) + Values(seen)
      {
        var c := list[i];
        TextGrows([Update(table)], seen, c, Set, Comma);
        Regroup(old(items), Values(seen), [c.value]);
        items := items + [c.value];
        text := text + [if count > 1 then Comma else Set];
        text := text + [Column(c.column), Equals, Placeholder(count)];
        count := count + 1;
        seen := seen + [c];
      }
      assert seen == list;
      assert |items| == |old(items)| + |Values(settings)|;
    }

    method Wh(column: string, value: Types)
      modifies this
      ensures wheres == old(wheres)[column := value]
      ensures text == old(text) && items == old(items) && settings == old(settings)
    {
      wheres := wheres[column := value];
    }

    /** The finished text with its values.  It can be read exactly if it assigns something and there is at
        most one condition.  It then assigns every column the value at its own position, which is its own
        value if text and values belong together, under that condition. */
    method Query() returns (r: Result<(seq<Word>, seq<Types>), ()>)
      modifies this
      ensures r.Err? <==> old(items) == []
      ensures r.Ok? && old(Written()) ==>
                var meaning := ReadUpdate(r.value.0, r.value.1);
                && (meaning.Some? <==> old(settings) != [] && |old(wheres)| <= 1)
                && (meaning.Some? ==>
                      && meaning.value.table == table && meaning.value.assignments == Assigned(old(settings), old(items))
                      && (old(Aligned()) ==> meaning.value.assignments == old(settings))
                      && (meaning.value.condition.None? <==> old(wheres) == map[])
                      && (meaning.value.condition.Some? ==>
                            var c := meaning.value.condition.value;
                            old(wheres) == map[c.column := c.value] && !c.isAny))
      ensures r.Ok? ==> items == [] && wheres == map[]
    {
      if items == [] {
        return Err(());
      }
      var len := |items|;
      var count := len + 1;
      var list := Walk(wheres, false);
      wheres := map[];
      ghost var body, values := text, items;
      for i := 0 to |list|
        invariant text == body + Repeated(list[..i], count)
        invariant items == values + Values(list[..i])
        invariant wheres == map[] && count == len + 1 && settings == old(settings)
      {
        assert list[..i + 1] == list[..i] + [list[i]];
        text := text + [if count == len + 1 then Where else Comma, Column(list[i].column), Equals, Placeholder(count)];
        items := items + [list[i].value];
        assert Repeated(list[..i + 1], count) == Repeated(list[..i], count) + [Where] + Comparison(list[i], count);
      }
      assert list[..|list|] == list;
      r := Ok((text, items));
      if old(Written()) {
        AssignedText(settings, values, 1, Set, Comma);
        ReadsUpdate(table, Assigned(settings, values), values, list, text, items);
        WhichCondition(list, old(wheres));
      }
      items := [];
    }
  }

  /** Conditions written without counting on: each with its own WHERE and the same placeholder. */
  ghost function Repeated(conditions: seq<Condition>, n: nat): seq<Word> {
    if conditions == [] then []
    else Repeated(conditions[..|conditions| - 1], n) + [Where] + Comparison(conditions[|conditions| - 1], n)
  }

  lemma {:induction false} RepeatedStarts(conditions: seq<Condition>, n: nat)
    requires conditions != []
    ensures [Where] + Comparison(conditions[0], n) <= Repeated(conditions, n)
    ensures |Repeated(conditions, n)| == 4 * |conditions|
    ensures |conditions| > 1 ==> Repeated(conditions, n)[4] == Where
  {
    var front := conditions[..|conditions| - 1];
    if front != [] {
      RepeatedStarts(front, n);
    }
  }

  /** The columns of the settings, each with the value at its position. */
  ghost function Assigned(settings: seq<Condition>, values: seq<Types>): (r: seq<Condition>)
    requires |settings| <= |values|
    ensures (forall i :: 0 <= i < |settings| ==> !settings[i].isAny) && values == Values(settings) ==> r == settings
  {
    seq(|settings|, i requires 0 <= i < |settings| => Condition(settings[i].column, false, values[i]))
  }

  lemma {:induction false} AssignedText(settings: seq<Condition>, values: seq<Types>, from: nat, start: Word, joint: Word)
    requires |settings| <= |values| && forall i :: 0 <= i < |settings| ==> !settings[i].isAny
    ensures Comparisons(Assigned(settings, values), from, start, joint) == Comparisons(settings, from, start, joint)
  {
    if settings != [] {
      AssignedText(settings[1..], values[1..], from + 1, joint, joint);
      assert Assigned(settings, values)[1..] == Assigned(settings[1..], values[1..]);
    }
  }

  lemma {:induction false} ReadsUpdate(table: string, settings: seq<Condition>, values: seq<Types>, list: seq<Condition>,
                                       text: seq<Word>, binds: seq<Types>)
    requires |settings| <= |values| && forall i :: 0 <= i < |settings| ==> !settings[i].isAny && values[i] == settings[i].value
    requires text == [Update(table)] + Comparisons(settings, 1, Set, Comma) + Repeated(list, |values| + 1)
    requires binds == values + Values(list)
    ensures ReadUpdate(text, binds) ==
            if settings == [] || |list| > 1 then None else Some(Change(table, settings, if list == [] then None else Some(list[0])))
  {
    var tail := Repeated(list, |values| + 1);
    assert text[1..] == Comparisons(settings, 1, Set, Comma) + tail;
    if list != [] {
      RepeatedStarts(list, |values| + 1);
      assert tail[0] == Where;
    }
    ReadsComparisons(settings, 1, Set, Comma, tail, binds);
    if list != [] {
      ReadsFirst(list, |values| + 1, binds);
    }
  }

  /** Only the first of the repeated conditions can be read. */
  lemma {:induction false} ReadsFirst(list: seq<Condition>, n: nat, binds: seq<Types>)
    requires list != [] && 1 <= n <= |binds| && binds[n - 1] == list[0].value
    ensures ReadComparisons(Repeated(list, n), binds, Where, And).Some?
    ensures var (conditions, rest) := ReadComparisons(Repeated(list, n), binds, Where, And).value;
            conditions == [list[0]] && (rest == [] <==> |list| == 1)
  {
    var tail := Repeated(list, n);
    RepeatedStarts(list, n);
    var c := list[0];
    assert tail[1..][0] == tail[1] == Column(c.column);
    assert tail[1..][1] == tail[2] && tail[1..][2] == tail[3];
    assert ReadComparison(tail[1..], binds) == Some(c);
    var more := tail[4..];
    assert |list| > 1 ==> more[0] == Where;
    assert ReadComparisons(more, binds, And, And) == Some(([], more));
    assert ReadComparisons(tail, binds, Where, And) == Some(([c] + [], more));
  }

  lemma WhichCondition(list: seq<Condition>, m: map<string, Types>)
    requires Lists(list, m, false)
    ensures list == [] <==> m == map[]
    ensures |list| == 1 ==> m == map[list[0].column := list[0].value] && !list[0].isAny
  {
    if |list| == 1 {
      assert list[0] in list;
      forall k | k in m
        ensures k == list[0].column
      {
        assert Stands(k, m[k], false) in list;
      }
    }
  }
}
