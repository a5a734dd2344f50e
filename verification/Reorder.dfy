/** Reordering tagged arrays of the stored configuration document. */
module Reorder {
  import opened Basics

  datatype Json =
    | Null
    | Bool(b: bool)
    | Num(text: string)
    | Str(s: string)
    | Arr(items: seq<Json>)
    | Obj(fields: Fields)

  type Fields = map<string, Json>

  datatype Error =
    | EmptyRequestTag
    | UnknownTarget
    | NotAnObject
    | MissingTag
    | DuplicateTag(tag: string)
    | LengthMismatch(got: nat, want: nat)
    | RepeatedRequest(tag: string)
    | UnknownRequest(tag: string)

  // ---- reading the document ----

  /** Unicode white space, as trimmed from both ends of a string. */
  predicate Space(c: char) {
    || c in "\t\n\r \U{000B}\U{000C}\U{0085}\U{00A0}\U{1680}\U{2028}\U{2029}\U{202F}\U{205F}\U{3000}"
    || '\U{2000}' <= c <= '\U{200A}'
  }

  predicate Blank(s: string) { forall i :: 0 <= i < |s| ==> Space(s[i]) }

  function Text(o: Fields, key: string): string { if key in o && o[key].Str? then o[key].s else "" }

  function Section(root: Fields, name: string): Fields {
    if name in root && root[name].Obj? then root[name].fields else map[]
  }

  function Items(section: Fields, key: string): seq<Json> {
    if key in section && section[key].Arr? then section[key].items else []
  }

  function TagOf(item: Json): string { if item.Obj? then Text(item.fields, "tag") else "" }

  function Tags(items: seq<Json>): (tags: seq<string>)
    ensures |tags| == |items| && forall i :: 0 <= i < |items| ==> tags[i] == TagOf(items[i])
  {
    seq(|items|, i requires 0 <= i < |items| => TagOf(items[i]))
  }

  /** The server that answers when no rule applies: the named final one, else the
      first of the list. */
  function DefaultServer(dns: Fields): string {
    if !Blank(Text(dns, "final")) then Text(dns, "final")
    else if Items(dns, "servers") != [] then TagOf(Items(dns, "servers")[0])
    else ""
  }

  // ---- what a request must be ----

  ghost predicate Distinct<T>(s: seq<T>) { forall i, j :: 0 <= i < j < |s| ==> s[i] != s[j] }

  ghost predicate WellTagged(items: seq<Json>) {
    && (forall i :: 0 <= i < |items| ==> items[i].Obj? && !Blank(TagOf(items[i])))
    && Distinct(Tags(items))
  }

  /** `items[i]` is the first one at fault, and `e` says how. */
  ghost predicate FaultAt(items: seq<Json>, i: int, e: Error) {
    && 0 <= i < |items| && WellTagged(items[..i])
    && match e
       case NotAnObject => !items[i].Obj?
       case MissingTag => items[i].Obj? && Blank(TagOf(items[i]))
       case DuplicateTag(t) => items[i].Obj? && !Blank(t) && TagOf(items[i]) == t && t in Tags(items[..i])
       case _ => false
  }

  /** `requested[i]` is the first requested tag at fault, and `e` says how. */
  ghost predicate RequestFaultAt(current: seq<string>, requested: seq<string>, i: int, e: Error) {
    && 0 <= i < |requested| && Distinct(requested[..i]) && (forall j :: 0 <= j < i ==> requested[j] in current)
    && match e
       case RepeatedRequest(t) => requested[i] == t && t in requested[..i]
       case UnknownRequest(t) => requested[i] == t && t !in requested[..i] && t !in current
       case _ => false
  }

  /** As many distinct values as there are places, all taken from those places,
      fill every place exactly once. */
  lemma {:induction false} Pigeonhole<T>(places: seq<T>, chosen: seq<T>)
    requires |places| == |chosen| && Distinct(chosen) && forall i :: 0 <= i < |chosen| ==> chosen[i] in places
    ensures multiset(places) == multiset(chosen)
    decreases |chosen|
  {
    if chosen != [] {
      var shorter, x := chosen[..|chosen| - 1], chosen[|chosen| - 1];
      var k :| 0 <= k < |places| && places[k] == x;
      var rest := places[..k] + places[k + 1..];
      assert places == places[..k] + [x] + places[k + 1..];
      forall i | 0 <= i < |shorter| ensures shorter[i] in rest {
        StillThere(places, k, chosen[i]);
      }
      Pigeonhole(rest, shorter);
      assert chosen == shorter + [x];
    }
  }

  lemma StillThere<T>(places: seq<T>, k: nat, y: T)
    requires k < |places| && y in places && y != places[k]
    ensures y in places[..k] + places[k + 1..]
  {
    var j :| 0 <= j < |places| && places[j] == y;
    assert y == if j < k then places[..k][j] else places[k + 1..][j - k - 1];
  }

  /** Well-tagged items are determined by what they are and the order of their
      tags, so the contract of a reorder leaves no choice. */
  lemma OrderDetermines(a: seq<Json>, b: seq<Json>)
    requires WellTagged(a) && multiset(a) == multiset(b) && Tags(a) == Tags(b)
    ensures a == b
  {
    assert |a| == |Tags(a)| == |b|;
    forall i | 0 <= i < |a| ensures a[i] == b[i] {
      assert b[i] in multiset(a);
      var j :| 0 <= j < |a| && a[j] == b[i];
      assert Tags(a)[j] == Tags(b)[i] == Tags(a)[i];
    }
  }

  // ---- the operations ----

  method ParseTags(tags: seq<string>) returns (err: Option<Error>)
    ensures err == if forall i :: 0 <= i < |tags| ==> !Blank(tags[i]) then None else Some(EmptyRequestTag)
  {
    for n := 0 to |tags|
      invariant forall i :: 0 <= i < n ==> !Blank(tags[i])
    {
      if Blank(tags[n]) {
        return Some(EmptyRequestTag);
      }
    }
    err := None;
  }

  ghost predicate Indexed(items: seq<Json>, byTag: map<string, Json>) {
    && (forall i :: 0 <= i < |items| ==> TagOf(items[i]) in byTag && byTag[TagOf(items[i])] == items[i])
    && (forall t :: t in byTag ==> t in Tags(items))
  }

  /** The tags in order and the items by tag, or the first item at fault. */
  method CollectTags(items: seq<Json>) returns (err: Option<Error>, current: seq<string>, byTag: map<string, Json>)
    ensures err.None? ==> WellTagged(items) && current == Tags(items) && Indexed(items, byTag)
    ensures err.Some? ==> !WellTagged(items) && exists i :: FaultAt(items, i, err.value)
  {
    current, byTag := [], map[];
    for n := 0 to |items|
      invariant WellTagged(items[..n]) && current == Tags(items[..n]) && Indexed(items[..n], byTag)
    {
      var e := ItemFault(items[n], byTag);
      if e.Some? {
        FaultIsOne(items, n, byTag, e.value);
        return e, current, byTag;
      }
      OneMoreItem(items, n, byTag);
      current := current + [TagOf(items[n])];
      byTag := byTag[TagOf(items[n]) := items[n]];
    }
    assert items[..|items|] == items;
    err := None;
  }

  function ItemFault(item: Json, byTag: map<string, Json>): Option<Error> {
    if !item.Obj? then Some(NotAnObject)
    else if Blank(TagOf(item)) then Some(MissingTag)
    else if TagOf(item) in byTag then Some(DuplicateTag(TagOf(item)))
    else None
  }

  lemma FaultIsOne(items: seq<Json>, n: nat, byTag: map<string, Json>, e: Error)
    requires n < |items| && WellTagged(items[..n]) && Indexed(items[..n], byTag) && ItemFault(items[n], byTag) == Some(e)
    ensures FaultAt(items, n, e) && !WellTagged(items)
  {
    if e.DuplicateTag? {
      var i :| 0 <= i < n && Tags(items[..n])[i] == e.tag;
      assert Tags(items)[i] == Tags(items)[n];
    }
  }

  lemma OneMoreItem(items: seq<Json>, n: nat, byTag: map<string, Json>)
    requires n < |items| && WellTagged(items[..n]) && Indexed(items[..n], byTag) && ItemFault(items[n], byTag) == None
    ensures WellTagged(items[..n + 1]) && Tags(items[..n + 1]) == Tags(items[..n]) + [TagOf(items[n])]
    ensures Indexed(items[..n + 1], byTag[TagOf(items[n]) := items[n]])
  {
    assert items[..n + 1] == items[..n] + [items[n]];
    SnocTagged(items[..n], items[n], byTag);
    SnocIndexed(items[..n], items[n], byTag);
  }

  lemma TagsSnoc(items: seq<Json>, item: Json)
    ensures Tags(items + [item]) == Tags(items) + [TagOf(item)]
  {
  }

  lemma SnocTagged(items: seq<Json>, item: Json, byTag: map<string, Json>)
    requires WellTagged(items) && Indexed(items, byTag) && ItemFault(item, byTag) == None
    ensures WellTagged(items + [item]) && Tags(items + [item]) == Tags(items) + [TagOf(item)]
  {
    TagsSnoc(items, item);
    assert forall i :: 0 <= i < |items| ==> Tags(items)[i] == TagOf(items[i]) && TagOf(items[i]) in byTag;
    DistinctOneMore(Tags(items), TagOf(item));
  }

  lemma SnocIndexed(items: seq<Json>, item: Json, byTag: map<string, Json>)
    requires Indexed(items, byTag) && TagOf(item) !in byTag
    ensures Indexed(items + [item], byTag[TagOf(item) := item])
  {
    TagsSnoc(items, item);
    assert Tags(items + [item])[|items|] == TagOf(item);
    forall i | 0 <= i < |items + [item]|
      ensures TagOf((items + [item])[i]) in byTag[TagOf(item) := item]
      ensures byTag[TagOf(item) := item][TagOf((items + [item])[i])] == (items + [item])[i]
    {
      if i < |items| {
        assert (items + [item])[i] == items[i] && TagOf(items[i]) in byTag;
      }
    }
  }

  lemma DistinctOneMore<T>(s: seq<T>, x: T)
    requires Distinct(s) && x !in s
    ensures Distinct(s + [x])
  {
  }

  /** Accepts exactly the duplicate-free permutations of the current tags. */
  method ValidateTags(current: seq<string>, requested: seq<string>) returns (err: Option<Error>)
    ensures err.None? <==> Distinct(requested) && multiset(requested) == multiset(current)
    ensures err.Some? ==>
              if |current| != |requested| then err.value == LengthMismatch(|requested|, |current|)
              else exists i :: RequestFaultAt(current, requested, i, err.value)
  {
    if |current| != |requested| {
      assert |multiset(requested)| != |multiset(current)|;
      return Some(LengthMismatch(|requested|, |current|));
    }
    var expected: set<string> := {};
    for n := 0 to |current|
      invariant expected == set i | 0 <= i < n :: current[i]
    {
      expected := expected + {current[n]};
    }
    var seen: set<string> := {};
    for n := 0 to |requested|
      invariant seen == set i | 0 <= i < n :: requested[i]
      invariant Distinct(requested[..n]) && forall i :: 0 <= i < n ==> requested[i] in current
    {
      if requested[n] in seen {
        assert requested[n] in requested[..n];
        assert RequestFaultAt(current, requested, n, RepeatedRequest(requested[n]));
        return Some(RepeatedRequest(requested[n]));
      }
      seen := seen + {requested[n]};
      if requested[n] !in expected {
        assert requested[n] in multiset(requested) && requested[n] !in multiset(current);
        assert RequestFaultAt(current, requested, n, UnknownRequest(requested[n]));
        return Some(UnknownRequest(requested[n]));
      }
    }
    assert requested[..|requested|] == requested;
    Pigeonhole(current, requested);
    err := None;
  }

  lemma FoundByTag(items: seq<Json>, byTag: map<string, Json>, requested: seq<string>, n: nat)
    requires Indexed(items, byTag) && n < |requested| && multiset(requested) == multiset(Tags(items))
    ensures requested[n] in byTag && byTag[requested[n]] in items && TagOf(byTag[requested[n]]) == requested[n]
  {
    assert requested[n] in multiset(Tags(items));
    var k :| 0 <= k < |Tags(items)| && Tags(items)[k] == requested[n];
    assert byTag[TagOf(items[k])] == items[k];
  }

  /** The requested order of the items found by tag. */
  method Pick(items: seq<Json>, byTag: map<string, Json>, requested: seq<string>) returns (reordered: seq<Json>)
    requires WellTagged(items) && Indexed(items, byTag)
    requires Distinct(requested) && multiset(requested) == multiset(Tags(items))
    ensures Tags(reordered) == requested && multiset(reordered) == multiset(items)
  {
    assert |multiset(requested)| == |multiset(Tags(items))|;
    reordered := [];
    for n := 0 to |requested|
      invariant |reordered| == n
      invariant forall i :: 0 <= i < n ==> reordered[i] in items && TagOf(reordered[i]) == requested[i]
    {
      FoundByTag(items, byTag, requested, n);
      reordered := reordered + [byTag[requested[n]]];
    }
    assert Tags(reordered) == requested;
    DistinctByTag(reordered);
    Pigeonhole(items, reordered);
  }

  lemma DistinctByTag(items: seq<Json>)
    requires Distinct(Tags(items))
    ensures Distinct(items)
  {
    forall i, j | 0 <= i < j < |items| ensures items[i] != items[j] {
      assert Tags(items)[i] != Tags(items)[j];
    }
  }

  /** The document after `key` of `section` has been given `items`. */
  function WithItems(root: Fields, section: string, key: string, items: seq<Json>): Fields {
    root[section := Obj(Section(root, section)[key := Arr(items)])]
  }

  function Ensured(root: Fields, section: string): Fields { root[section := Obj(Section(root, section))] }

  /** `to` lists the same items as `from`, in the order of the requested tags. */
  ghost predicate Permutes(from: seq<Json>, requested: seq<string>, to: seq<Json>) {
    Tags(to) == requested && multiset(to) == multiset(from)
  }

  ghost predicate Acceptable(items: seq<Json>, requested: seq<string>) {
    WellTagged(items) && multiset(requested) == multiset(Tags(items))
  }

  /** The reason a reorder of `items` is refused. */
  ghost predicate Refuses(items: seq<Json>, requested: seq<string>, e: Error) {
    if !WellTagged(items) then exists i :: FaultAt(items, i, e)
    else if |items| != |requested| then e == LengthMismatch(|requested|, |items|)
    else exists i :: RequestFaultAt(Tags(items), requested, i, e)
  }

  lemma PermutationIsDistinct<T>(a: seq<T>, b: seq<T>)
    requires Distinct(a) && multiset(a) == multiset(b)
    ensures Distinct(b)
  {
    assert |multiset(a)| == |multiset(b)|;
    assert forall i :: 0 <= i < |a| ==> a[i] in multiset(b);
    forall i, j | 0 <= i < j < |b| ensures b[i] != b[j] {
      assert b == b[..i] + [b[i]] + b[i + 1..j] + [b[j]] + b[j + 1..];
      if b[i] == b[j] {
        assert multiset(b)[b[i]] >= 2;
        OnceEach(a, b[i]);
      }
    }
  }

  lemma OnceEach<T>(a: seq<T>, x: T)
    requires Distinct(a)
    ensures multiset(a)[x] <= 1
  {
    if x in a {
      var k :| 0 <= k < |a| && a[k] == x;
      assert x !in a[..k] && x !in a[k + 1..];
      assert a == a[..k] + [x] + a[k + 1..];
    }
  }

  class ConfigDocument {
    var root: Fields

    /** Reorders one tagged array in place; refuses everything but a permutation
        of its duplicate-free tags. */
    method ReorderArray(section: string, key: string, requested: seq<string>) returns (err: Option<Error>)
      modifies this
      ensures var items := Items(Section(old(root), section), key);
              && (err.None? <==> Acceptable(items, requested))
              && (err.Some? ==> root == Ensured(old(root), section) && Refuses(items, requested, err.value))
              && (err.None? ==> exists to :: Permutes(items, requested, to) && root == WithItems(old(root), section, key, to))
    {
      root := root[section := Obj(Section(root, section))];
      var items := Items(Section(root, section), key);
      var current, byTag;
      err, current, byTag := CollectTags(items);
      if err.Some? {
        return;
      }
      err := ValidateTags(current, requested);
      if err.Some? {
        if multiset(requested) == multiset(current) {
          PermutationIsDistinct(current, requested);
        }
        return;
      }
      var reordered := Pick(items, byTag, requested);
      root := root[section := Obj(Section(root, section)[key := Arr(reordered)])];
      assert Permutes(items, requested, reordered);
      assert root == WithItems(old(root), section, key, reordered);
    }

    /** Names the first server as the final one when none is named. */
    method PreserveDnsFinal() returns (err: Option<Error>)
      modifies this
      ensures root == if err.Some? then Ensured(old(root), "dns") else Preserved(old(root))
      ensures err == if PreserveFails(Section(old(root), "dns")) then Some(NotAnObject) else None
    {
      root := root["dns" := Obj(Section(root, "dns"))];
      var dns := Section(root, "dns");
      if !Blank(Text(dns, "final")) {
        return None;
      }
      var servers := Items(dns, "servers");
      if |servers| == 0 {
        return None;
      }
      if !servers[0].Obj? {
        return Some(NotAnObject);
      }
      var tag := Text(servers[0].fields, "tag");
      if Blank(tag) {
        return None;
      }
      root := root["dns" := Obj(dns["final" := Str(tag)])];
      return None;
    }

    /** A reorder request as a whole. */
    method Reorder(target: string, requested: seq<string>) returns (err: Option<Error>)
      modifies this
      ensures target == "dnsServers" ==>
                var dns := Section(old(root), "dns");
                && (err.None? <==> Acceptable(Items(dns, "servers"), requested))
                && (err.None? ==>
                      && DefaultServer(Section(root, "dns")) == DefaultServer(dns)
                      && Permutes(Items(dns, "servers"), requested, Items(Section(root, "dns"), "servers"))
                      && OnlyTheseChange(old(root), root, "dns", {"final", "servers"}))
      ensures target == "ruleSets" ==>
                var route := Section(old(root), "route");
                && (err.None? <==> Acceptable(Items(route, "rule_set"), requested))
                && (err.None? ==>
                      && Permutes(Items(route, "rule_set"), requested, Items(Section(root, "route"), "rule_set"))
                      && OnlyTheseChange(old(root), root, "route", {"rule_set"}))
      ensures target !in {"dnsServers", "ruleSets"} ==> err.Some? && root == old(root)
    {
      err := ParseTags(requested);
      if err.Some? {
        BlankIsNotAcceptable(Items(Section(root, "dns"), "servers"), requested);
        BlankIsNotAcceptable(Items(Section(root, "route"), "rule_set"), requested);
        return;
      }
      if target == "dnsServers" {
        err := PreserveDnsFinal();
        if err.Some? {
          return;
        }
        ghost var preserved := root;
        PreservedKeepsDefault(old(root));
        err := ReorderArray("dns", "servers", requested);
        if err.None? {
          ghost var to :| Permutes(Items(Section(preserved, "dns"), "servers"), requested, to) && root == WithItems(preserved, "dns", "servers", to);
          ReorderKeepsDefault(old(root), requested, to);
        }
      } else if target == "ruleSets" {
        err := ReorderArray("route", "rule_set", requested);
      } else {
        err := Some(UnknownTarget);
      }
    }
  }

  // ---- meaning ----

  /** The first entry of the server list is there and is not an object. */
  predicate PreserveFails(dns: Fields) {
    Blank(Text(dns, "final")) && Items(dns, "servers") != [] && !Items(dns, "servers")[0].Obj?
  }

  function Preserved(root: Fields): Fields {
    var dns := Section(root, "dns");
    if Blank(Text(dns, "final")) && !Blank(DefaultServer(dns)) then root["dns" := Obj(dns["final" := Str(DefaultServer(dns))])]
    else Ensured(root, "dns")
  }

  /** Outside `section` nothing changes, and inside it only the named fields. */
  ghost predicate OnlyTheseChange(before: Fields, after: Fields, section: string, changed: set<string>) {
    && (forall k :: k != section ==> (k in before <==> k in after) && (k in before ==> before[k] == after[k]))
    && var was, now := Section(before, section), Section(after, section);
       forall k :: k !in changed ==> (k in was <==> k in now) && (k in was ==> was[k] == now[k])
  }

  lemma PreservedKeepsDefault(root: Fields)
    ensures var was, now := Section(root, "dns"), Section(Preserved(root), "dns");
            && DefaultServer(now) == DefaultServer(was) && Items(now, "servers") == Items(was, "servers")
            && (!Blank(DefaultServer(was)) ==> Text(now, "final") == DefaultServer(was))
  {
  }

  lemma BlankIsNotAcceptable(items: seq<Json>, requested: seq<string>)
    requires exists i :: 0 <= i < |requested| && Blank(requested[i])
    ensures !Acceptable(items, requested)
  {
    var i :| 0 <= i < |requested| && Blank(requested[i]);
    if multiset(requested) == multiset(Tags(items)) {
      assert requested[i] in multiset(Tags(items));
      var k :| 0 <= k < |items| && Tags(items)[k] == requested[i];
      assert TagOf(items[k]) == requested[i];
    }
  }

  /** Naming the final server first makes any accepted reorder keep the default
      server. */
  lemma ReorderKeepsDefault(root: Fields, requested: seq<string>, to: seq<Json>)
    requires var servers := Items(Section(root, "dns"), "servers");
             Acceptable(servers, requested) && Permutes(servers, requested, to)
    ensures var after := WithItems(Preserved(root), "dns", "servers", to);
            && DefaultServer(Section(after, "dns")) == DefaultServer(Section(root, "dns"))
            && Items(Section(after, "dns"), "servers") == to
            && OnlyTheseChange(root, after, "dns", {"final", "servers"})
  {
    PreservedKeepsDefault(root);
    var servers := Items(Section(root, "dns"), "servers");
    assert |multiset(to)| == |multiset(servers)|;
  }

  /** Asking for the original order undoes a reorder. */
  lemma ReorderUndone(items: seq<Json>, requested: seq<string>, there: seq<Json>, back: seq<Json>)
    requires Acceptable(items, requested) && Permutes(items, requested, there) && Permutes(there, Tags(items), back)
    ensures Acceptable(there, Tags(items)) && back == items
  {
    PermutationIsDistinct(Tags(items), requested);
    forall i | 0 <= i < |there| ensures there[i].Obj? && !Blank(TagOf(there[i])) {
      assert there[i] in multiset(items);
    }
    OrderDetermines(items, back);
  }

  // ---- blank strings ----

  /** A string without the white space at both ends. */
  function Trimmed(s: string): string {
    if s == "" then ""
    else if Space(s[0]) then Trimmed(s[1..])
    else if Space(s[|s| - 1]) then Trimmed(s[..|s| - 1])
    else s
  }

  /** A string is blank exactly if trimming leaves nothing of it. */
  lemma {:induction false} BlankIsTrimmedAway(s: string)
    ensures Blank(s) <==> Trimmed(s) == ""
  {
    if s != "" {
      if Space(s[0]) {
        BlankIsTrimmedAway(s[1..]);
        assert forall i :: 0 < i < |s| ==> s[i] == s[1..][i - 1];
      } else if Space(s[|s| - 1]) {
        BlankIsTrimmedAway(s[..|s| - 1]);
      }
    }
  }

  // ---- refusals ----

  lemma {:induction false} FaultExists(items: seq<Json>) returns (i: nat, e: Error)
    requires !WellTagged(items)
    ensures FaultAt(items, i, e)
    decreases |items|
  {
    var front, n := items[..|items| - 1], |items| - 1;
    if !WellTagged(front) {
      i, e := FaultExists(front);
      assert items[..i] == front[..i];
    } else {
      i := n;
      if !items[n].Obj? {
        e := NotAnObject;
      } else if Blank(TagOf(items[n])) {
        e := MissingTag;
      } else {
        e := DuplicateTag(TagOf(items[n]));
        if TagOf(items[n]) !in Tags(front) {
          assert items == front + [items[n]];
          TagsSnoc(front, items[n]);
          DistinctOneMore(Tags(front), TagOf(items[n]));
        }
      }
    }
  }

  /** A wrong array has exactly one first fault, and it is of one kind. */
  lemma OneFault(items: seq<Json>, i: int, e: Error, j: int, f: Error)
    requires FaultAt(items, i, e) && FaultAt(items, j, f)
    ensures i == j && e == f && !WellTagged(items)
  {
    if i < j {
      FaultSpoils(items, i, e, j);
    } else if j < i {
      FaultSpoils(items, j, f, i);
    }
    FaultSpoils(items, i, e, |items|);
    assert items[..|items|] == items;
  }

  lemma FaultSpoils(items: seq<Json>, i: int, e: Error, n: int)
    requires FaultAt(items, i, e) && i < n <= |items|
    ensures !WellTagged(items[..n])
  {
    var front := items[..n];
    assert front[i] == items[i];
    if e.DuplicateTag? {
      var k :| 0 <= k < i && Tags(items[..i])[k] == e.tag;
      assert Tags(front)[k] == Tags(front)[i];
    }
  }

  /** The reason named for a wrong array is what is wrong with its first bad item. */
  lemma RefusalNamesFault(items: seq<Json>, requested: seq<string>, e: Error, i: nat)
    requires i < |items| && WellTagged(items[..i]) && Refuses(items, requested, e)
    ensures !items[i].Obj? ==> e == NotAnObject
    ensures items[i].Obj? && Trimmed(TagOf(items[i])) == "" ==> e == MissingTag
    ensures items[i].Obj? && Trimmed(TagOf(items[i])) != "" && TagOf(items[i]) in Tags(items[..i]) ==>
      e == DuplicateTag(TagOf(items[i]))
  {
    BlankIsTrimmedAway(TagOf(items[i]));
    var f := if !items[i].Obj? then NotAnObject else if Blank(TagOf(items[i])) then MissingTag else DuplicateTag(TagOf(items[i]));
    if FaultAt(items, i, f) {
      FaultSpoils(items, i, f, |items|);
      assert items[..|items|] == items;
      var j :| FaultAt(items, j, e);
      OneFault(items, i, f, j, e);
    }
  }

  /** The reason named for a request of the right length is its first tag that is
      repeated or that no item has. */
  lemma RefusalNamesTag(items: seq<Json>, requested: seq<string>, e: Error, i: nat)
    requires WellTagged(items) && |items| == |requested| && Refuses(items, requested, e)
    requires i < |requested| && Distinct(requested[..i]) && forall j :: 0 <= j < i ==> requested[j] in Tags(items)
    ensures requested[i] in requested[..i] ==> e == RepeatedRequest(requested[i])
    ensures requested[i] !in requested[..i] && requested[i] !in Tags(items) ==> e == UnknownRequest(requested[i])
  {
    var k :| RequestFaultAt(Tags(items), requested, k, e);
    if requested[i] in requested[..i] || requested[i] !in Tags(items) {
      FirstRequestFault(Tags(items), requested, k, e, i);
    }
  }

  lemma FirstRequestFault(current: seq<string>, requested: seq<string>, k: int, e: Error, i: nat)
    requires RequestFaultAt(current, requested, k, e) && i < |requested| && Distinct(requested[..i])
    requires forall j :: 0 <= j < i ==> requested[j] in current
    requires requested[i] in requested[..i] || requested[i] !in current
    ensures k == i
  {
  }

  lemma RefusalNamesLength(items: seq<Json>, requested: seq<string>, e: Error)
    requires WellTagged(items) && |items| != |requested| && Refuses(items, requested, e)
    ensures e == LengthMismatch(|requested|, |items|)
  {
  }
}
