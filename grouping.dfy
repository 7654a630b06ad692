/** The grouping that `fetchMenus` performs on the fetched menu list: a
    dictionary from category name to the menus of that category, filled by
    one pass over the list that creates a bucket when it is missing and then
    appends to it. */
module Grouping {
  import opened JsValues
  import opened Records

  /** The `menusByCategory` dictionary. */
  type Groups = map<string, seq<Menu>>

  /** One pass of the loop body: create the bucket for the menu's category
      name when it is missing, then append the menu to it. */
  function AddToBucket(g: Groups, m: Menu): (r: Groups)
    ensures r.Keys == g.Keys + {m.category.name}
    ensures forall k :: k in g && k != m.category.name ==> r[k] == g[k]
    ensures r[m.category.name] == (if m.category.name in g then g[m.category.name] else []) + [m]
  {
    var name := m.category.name;
    var bucket := if name in g then g[name] else [];
    g[name := bucket + [m]]
  }

  /** The dictionary after the loop has visited every menu, in order. */
  function Grouped(s: seq<Menu>): Groups {
    if s == [] then map[] else AddToBucket(Grouped(s[..|s| - 1]), s[|s| - 1])
  }

  /** Reference definition of one bucket: the menus of `s` whose category is
      named `k`, in the order of `s`. */
  function MenusNamed(s: seq<Menu>, k: string): seq<Menu> {
    if s == [] then []
    else (if s[0].category.name == k then [s[0]] else []) + MenusNamed(s[1..], k)
  }

  /** The category names that occur in `s`. */
  function NamesIn(s: seq<Menu>): set<string> {
    set i | 0 <= i < |s| :: s[i].category.name
  }

  /** The loop of `fetchMenus`, building the dictionary in place. */
  method GroupByCategory(menus: seq<Menu>) returns (groups: Groups)
    ensures groups == Grouped(menus)
  {
    groups := map[];
    for i := 0 to |menus|
      invariant groups == Grouped(menus[..i])
    {
      var menu := menus[i];
      if menu.category.name !in groups {
        groups := groups[menu.category.name := []];
      }
      groups := groups[menu.category.name := groups[menu.category.name] + [menu]];
      assert menus[..i + 1][..i] == menus[..i];
    }
    assert menus[..|menus|] == menus;
  }

  /** Filtering distributes over concatenation: a bucket lists the menus
      in response order, a prefix's menus before the rest. */
  lemma {:induction false} MenusNamedAppend(s: seq<Menu>, t: seq<Menu>, k: string)
    ensures MenusNamed(s + t, k) == MenusNamed(s, k) + MenusNamed(t, k)
  {
    if s == [] {
      assert s + t == t;
    } else {
      var st := s + t;
      assert st != [] && st[0] == s[0];
      assert st[1..] == s[1..] + t;
      var head := if s[0].category.name == k then [s[0]] else [];
      assert MenusNamed(st, k) == head + MenusNamed(st[1..], k);
      assert MenusNamed(s, k) == head + MenusNamed(s[1..], k);
      MenusNamedAppend(s[1..], t, k);
    }
  }

  lemma {:induction false} MenusNamedEmpty(s: seq<Menu>, k: string)
    ensures MenusNamed(s, k) == [] <==> k !in NamesIn(s)
  {
    if s != [] {
      MenusNamedEmpty(s[1..], k);
      assert NamesIn(s) == {s[0].category.name} + NamesIn(s[1..]) by {
        forall n | n in NamesIn(s) ensures n in {s[0].category.name} + NamesIn(s[1..]) {
          var i :| 0 <= i < |s| && s[i].category.name == n;
          if i > 0 { assert s[1..][i - 1] == s[i]; }
        }
        forall n | n in NamesIn(s[1..]) ensures n in NamesIn(s) {
          var i :| 0 <= i < |s[1..]| && s[1..][i].category.name == n;
          assert s[i + 1] == s[1..][i];
        }
      }
    }
  }

  lemma NamesInSnoc(s: seq<Menu>)
    requires s != []
    ensures NamesIn(s) == NamesIn(s[..|s| - 1]) + {s[|s| - 1].category.name}
  {
    var p := s[..|s| - 1];
    forall n | n in NamesIn(s) ensures n in NamesIn(p) + {s[|s| - 1].category.name} {
      var i :| 0 <= i < |s| && s[i].category.name == n;
      if i < |p| { assert p[i] == s[i]; }
    }
    forall n | n in NamesIn(p) ensures n in NamesIn(s) {
      var i :| 0 <= i < |p| && p[i].category.name == n;
      assert s[i] == p[i];
    }
  }

  /** Every bucket of the grouping is exactly the reference filter, and a key
      is present exactly when some fetched menu carries that category name;
      so no key ever holds an empty bucket. */
  lemma {:induction false} GroupedIsFilter(s: seq<Menu>)
    ensures Grouped(s).Keys == NamesIn(s)
    ensures forall k :: k in Grouped(s) ==> Grouped(s)[k] == MenusNamed(s, k) && Grouped(s)[k] != []
  {
    if s != [] {
      var p, m := s[..|s| - 1], s[|s| - 1];
      assert s == p + [m];
      GroupedIsFilter(p);
      NamesInSnoc(s);
      forall k | k in Grouped(s)
        ensures Grouped(s)[k] == MenusNamed(s, k) && Grouped(s)[k] != []
      {
        MenusNamedAppend(p, [m], k);
        assert MenusNamed([m], k) == if m.category.name == k then [m] else [];
        if k != m.category.name {
          assert Grouped(s)[k] == Grouped(p)[k];
        } else if k !in Grouped(p) {
          MenusNamedEmpty(p, k);
        }
      }
    }
  }

  lemma {:induction false} MenusNamedCount(s: seq<Menu>, k: string, m: Menu)
    ensures multiset(MenusNamed(s, k))[m] == if m.category.name == k then multiset(s)[m] else 0
  {
    if s != [] {
      MenusNamedCount(s[1..], k, m);
      assert s == [s[0]] + s[1..];
      assert multiset(s) == multiset([s[0]]) + multiset(s[1..]);
    }
  }

  /** The grouping is an exact partition of the fetched list, duplicates
      counted: each menu occurs in the bucket of its own category name as
      often as in the response, and in no other bucket. */
  lemma GroupedPartition(s: seq<Menu>, m: Menu)
    ensures m in s ==> m.category.name in Grouped(s)
    ensures m.category.name in Grouped(s) ==>
              multiset(Grouped(s)[m.category.name])[m] == multiset(s)[m]
    ensures forall k :: k in Grouped(s) && k != m.category.name ==> m !in Grouped(s)[k]
  {
    GroupedIsFilter(s);
    if m in s {
      var i :| 0 <= i < |s| && s[i] == m;
      assert m.category.name in NamesIn(s);
    }
    MenusNamedCount(s, m.category.name, m);
    forall k | k in Grouped(s) && k != m.category.name
      ensures m !in Grouped(s)[k]
    {
      MenusNamedCount(s, k, m);
    }
  }

  // ---------------------------------------------------------------------
  // The loop as written, over a plain object `{}`

  /** One pass of the loop body on a plain object. `!menusByCategory[name]`
      is false for a name the object inherits from `Object.prototype`, so no
      bucket is created, and `.push` is then called on a function (or on the
      prototype object), which throws. */
  function AddToBucketAsWritten(g: Completion<Groups>, m: Menu): (r: Completion<Groups>)
    ensures g.TypeError? ==> r.TypeError?
  {
    match g
    case TypeError => TypeError
    case Normal(d) =>
      var name := m.category.name;
      if name in d then Normal(d[name := d[name] + [m]])
      else if name in InheritedProperties then TypeError
      else Normal(d[name := [m]])
  }

  function GroupedAsWritten(s: seq<Menu>): Completion<Groups> {
    if s == [] then Normal(map[])
    else AddToBucketAsWritten(GroupedAsWritten(s[..|s| - 1]), s[|s| - 1])
  }

  /** No fetched menu's category is named after an inherited property. */
  predicate OwnNamesOnly(s: seq<Menu>) {
    forall i :: 0 <= i < |s| ==> s[i].category.name !in InheritedProperties
  }

  /** The loop as written agrees with the dictionary grouping exactly when
      no fetched menu's category is named after an inherited property;
      otherwise it throws and the whole grouping is lost. */
  lemma {:induction false} GroupedAsWrittenThrows(s: seq<Menu>)
    ensures OwnNamesOnly(s) ==> GroupedAsWritten(s) == Normal(Grouped(s))
    ensures !OwnNamesOnly(s) ==> GroupedAsWritten(s) == TypeError
  {
    if s != [] {
      var p, m := s[..|s| - 1], s[|s| - 1];
      GroupedAsWrittenThrows(p);
      assert OwnNamesOnly(s) <==> OwnNamesOnly(p) && m.category.name !in InheritedProperties by {
        if OwnNamesOnly(p) && m.category.name !in InheritedProperties {
          forall i | 0 <= i < |s| ensures s[i].category.name !in InheritedProperties {
            if i < |p| { assert s[i] == p[i]; }
          }
        }
        if OwnNamesOnly(s) {
          forall i | 0 <= i < |p| ensures p[i].category.name !in InheritedProperties {
            assert s[i] == p[i];
          }
        }
      }
      if OwnNamesOnly(p) {
        AsWrittenStep(p, m);
      }
    }
  }

  lemma AsWrittenStep(p: seq<Menu>, m: Menu)
    requires OwnNamesOnly(p)
    ensures m.category.name in InheritedProperties ==> AddToBucketAsWritten(Normal(Grouped(p)), m) == TypeError
    ensures m.category.name !in InheritedProperties ==>
              AddToBucketAsWritten(Normal(Grouped(p)), m) == Normal(AddToBucket(Grouped(p), m))
  {
    var name := m.category.name;
    GroupedIsFilter(p);
    if name !in InheritedProperties {
      assert [] + [m] == [m];
    }
  }

  /** A single menu whose category is called "constructor": the dictionary
      grouping has one bucket for it, the loop as written throws. */
  lemma ConstructorCategoryIsLost()
    ensures var m := Menu(1, "Margherita", "Classic", 10, "M", "pizza.png", Category(1, "constructor"));
            Grouped([m]) == map["constructor" := [m]] && GroupedAsWritten([m]) == TypeError
  {
    var m := Menu(1, "Margherita", "Classic", 10, "M", "pizza.png", Category(1, "constructor"));
    assert [m][..0] == [];
    assert Grouped([m]) == AddToBucket(map[], m);
    assert [] + [m] == [m];
    assert GroupedAsWritten([m]) == AddToBucketAsWritten(Normal(map[]), m);
  }
}
