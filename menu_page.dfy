/** The menu page's grouping of the fetched menu rows by category name, the one computation
    the page does on the data (the rest of the page is rendering). */
module MenuPage {
  import opened Common
  import opened Groups
  import MenuRoute

  function CategoryNameOf(x: MenuRoute.MenuRow): string { x.categoryName }
  function OneRow(x: MenuRoute.MenuRow): int { 1 }

  /** The category names that occur among the rows. */
  function Names(s: seq<MenuRoute.MenuRow>): set<string>
  {
    set x | x in s :: x.categoryName
  }

  /** What the grouping is meant to build: one entry per category name that occurs, holding
      that category's rows in their original order. */
  function GroupSpec(s: seq<MenuRoute.MenuRow>): map<string, seq<MenuRoute.MenuRow>>
  {
    map k | k in Names(s) :: Select(s, CategoryNameOf, k)
  }

  lemma NoRowsNoGroup(s: seq<MenuRoute.MenuRow>, k: string)
    requires k !in Names(s)
    ensures Select(s, CategoryNameOf, k) == []
  {
  }

  /** Adding a row puts it at the end of its own group, creating the group when it is the
      first row of its category, and leaves the other groups alone. */
  lemma GroupSpecSnoc(s: seq<MenuRoute.MenuRow>, x: MenuRoute.MenuRow)
    ensures var g := GroupSpec(s);
      GroupSpec(s + [x]) == g[x.categoryName := (if x.categoryName in g then g[x.categoryName] else []) + [x]]
  {
    var g, g' := GroupSpec(s), GroupSpec(s + [x]);
    var k := x.categoryName;
    assert Names(s + [x]) == Names(s) + {k};
    forall n | n in g'
      ensures g'[n] == g[k := (if k in g then g[k] else []) + [x]][n]
    {
      SelectAppend(s, [x], CategoryNameOf, n);
      if n != k {
        assert Select([x], CategoryNameOf, n) == [];
      } else {
        assert Select([x], CategoryNameOf, n) == [x];
        if k !in g {
          NoRowsNoGroup(s, k);
        }
      }
    }
  }

  /** `menuItems.reduce(...)` into an accumulator object: for each row, create its category's
      list when missing, then push the row onto it. */
  method GroupMenu(items: array<MenuRoute.MenuRow>) returns (groups: map<string, seq<MenuRoute.MenuRow>>)
    ensures groups == GroupSpec(items[..])
  {
    groups := map[];
    assert GroupSpec(items[..0]) == map[];
    for i := 0 to items.Length
      invariant groups == GroupSpec(items[..i])
    {
      var item := items[i];
      if item.categoryName !in groups {
        groups := groups[item.categoryName := []];
      }
      groups := groups[item.categoryName := groups[item.categoryName] + [item]];
      GroupSpecSnoc(items[..i], item);
      assert items[..i + 1] == items[..i] + [item];
    }
    assert items[..items.Length] == items[..];
  }

  /** Every row lands in exactly one group, the one keyed by its category name. */
  lemma GroupsPartition(s: seq<MenuRoute.MenuRow>)
    ensures forall x :: x in s ==> x.categoryName in GroupSpec(s) && x in GroupSpec(s)[x.categoryName]
    ensures forall k, x :: k in GroupSpec(s) && x in GroupSpec(s)[k] ==> x in s && x.categoryName == k
  {
  }

  /** The group keys are exactly the category names that occur; no rows, no groups. */
  lemma GroupKeys(s: seq<MenuRoute.MenuRow>)
    ensures forall k :: k in GroupSpec(s) <==> exists x :: x in s && x.categoryName == k
    ensures s == [] ==> GroupSpec(s) == map[]
  {
  }

  /** Rows keep their input order inside a group: the group built from a prefix of the input
      is a prefix of the group built from all of it. */
  lemma GroupsKeepOrder(s: seq<MenuRoute.MenuRow>, n: nat, k: string)
    requires n <= |s| && k in GroupSpec(s[..n])
    ensures k in GroupSpec(s) && GroupSpec(s[..n])[k] <= GroupSpec(s)[k]
  {
    assert s == s[..n] + s[n..];
    SelectAppend(s[..n], s[n..], CategoryNameOf, k);
    var x :| x in s[..n] && x.categoryName == k;
    assert x in s;
  }

  /** The sizes of the groups listed under the keys `ks`. */
  function Sizes(g: map<string, seq<MenuRoute.MenuRow>>, ks: seq<string>): int
    requires forall k :: k in ks ==> k in g
  {
    if ks == [] then 0 else |g[ks[0]]| + Sizes(g, ks[1..])
  }

  lemma {:induction false} SizesAreGroupTotal(s: seq<MenuRoute.MenuRow>, ks: seq<string>)
    requires forall k :: k in ks ==> k in GroupSpec(s)
    ensures Sizes(GroupSpec(s), ks) == GroupTotal(s, CategoryNameOf, OneRow, ks)
  {
    if ks != [] {
      SizesAreGroupTotal(s, ks[1..]);
      SumByOnes(Select(s, CategoryNameOf, ks[0]), OneRow);
    }
  }

  /** The group sizes add up to the number of rows. */
  lemma GroupSizesAddUp(s: seq<MenuRoute.MenuRow>)
    ensures forall k :: k in Keys(s, CategoryNameOf) <==> k in GroupSpec(s)
    ensures Sizes(GroupSpec(s), Keys(s, CategoryNameOf)) == |s|
  {
    var ks := Keys(s, CategoryNameOf);
    SizesAreGroupTotal(s, ks);
    GroupTotalCovers(s, CategoryNameOf, OneRow, ks);
    SumByOnes(s, OneRow);
  }

  // ---------------------------------------------------------------------------
  // The accumulator as written: a plain object

  /** The properties every plain JavaScript object inherits from `Object.prototype`. */
  const InheritedNames: set<string> := {
    "constructor", "hasOwnProperty", "isPrototypeOf", "propertyIsEnumerable", "toLocaleString",
    "toString", "valueOf", "__proto__", "__defineGetter__", "__defineSetter__",
    "__lookupGetter__", "__lookupSetter__"}

  predicate Inherited(name: string)
  {
    name in InheritedNames
  }

  /** Some row's category name is an inherited property name. */
  predicate HasInherited(s: seq<MenuRoute.MenuRow>)
  {
    exists x :: x in s && Inherited(x.categoryName)
  }

  lemma HasInheritedSnoc(s: seq<MenuRoute.MenuRow>, x: MenuRoute.MenuRow)
    ensures HasInherited(s + [x]) <==> HasInherited(s) || Inherited(x.categoryName)
  {
    assert x in s + [x];
    assert forall y :: y in s + [x] <==> y in s || y == x;
  }

  /** The reduce exactly as written, starting from `{}`: for a category name that is an
      inherited property, `acc[name]` is already truthy (a function or the prototype), so no
      list is created and `.push` is not a function there: the reduce throws (`None`). */
  method GroupMenuAsWritten(items: array<MenuRoute.MenuRow>) returns (result: Option<map<string, seq<MenuRoute.MenuRow>>>)
    ensures result.None? <==> HasInherited(items[..])
    ensures result.Some? ==> result.value == GroupSpec(items[..])
  {
    var acc: map<string, seq<MenuRoute.MenuRow>> := map[];
    assert GroupSpec(items[..0]) == map[];
    for i := 0 to items.Length
      invariant acc == GroupSpec(items[..i])
      invariant !HasInherited(items[..i])
    {
      var item := items[i];
      var key := item.categoryName;
      var inherited := Inherited(key);
      assert items[..i + 1] == items[..i] + [item];
      HasInheritedSnoc(items[..i], item);
      if key !in acc && !inherited {
        acc := acc[key := []];
      }
      if key !in acc {
        PrefixInherited(items[..], i + 1);
        return None;
      }
      acc := acc[key := acc[key] + [item]];
      GroupSpecSnoc(items[..i], item);
    }
    assert items[..items.Length] == items[..];
    result := Some(acc);
  }

  lemma PrefixInherited(s: seq<MenuRoute.MenuRow>, n: nat)
    requires n <= |s| && HasInherited(s[..n])
    ensures HasInherited(s)
  {
    var x :| x in s[..n] && Inherited(x.categoryName);
    assert x in s;
  }

  /** A category named "constructor" has a well-defined group, yet the reduce as written
      throws on it. */
  lemma ConstructorCategory(x: MenuRoute.MenuRow)
    requires x.categoryName == "constructor"
    ensures HasInherited([x])
    ensures GroupSpec([x]) == map["constructor" := [x]]
  {
    assert x in [x];
    assert Names([x]) == {"constructor"};
    assert Select([x], CategoryNameOf, "constructor") == [x];
  }
}
