/**
 * The sidebar's navigation menu and its rule for highlighting the active link.
 */
module Sidebar {
  import opened TextOps
  import opened SeqFilter

  /** A menu entry; `title` holds the entry's `label` text (`label` is a reserved word in Dafny). */
  datatype MenuItem = MenuItem(id: string, title: string, path: string)

  const DashboardPath: string := "/dashboard"

  /** The menu, in display order. */
  const MenuItems: seq<MenuItem> := [
    MenuItem("dashboard", "Dashboard", DashboardPath),
    MenuItem("readers", "Readers", "/dashboard/readers"),
    MenuItem("books", "Books", "/dashboard/books"),
    MenuItem("lending", "Lending", "/dashboard/lending"),
    MenuItem("overdue", "Overdue", "/dashboard/overdue")]

  /** `isActive`: the root link only on the root page; any other link on every page under its path. */
  function IsActive(path: string, pathname: string): (active: bool)
    ensures path == "/" ==> (active <==> pathname == "/")
    ensures path != "/" ==> (active <==> StartsWith(pathname, path))
  {
    if path == "/" && pathname == "/" then true
    else if path != "/" && StartsWith(pathname, path) then true
    else false
  }

  /** Every link is active on its own page. */
  lemma OwnPathIsActive(path: string)
    ensures IsActive(path, path)
  {
    assert path[..|path|] == path;
  }

  /** A prefix of a prefix is a prefix. */
  lemma {:induction false} StartsWithTransitive(s: string, p: string, q: string)
    requires StartsWith(s, p) && StartsWith(p, q)
    ensures StartsWith(s, q)
  {
    assert s[..|q|] == s[..|p|][..|q|];
  }

  /**
   * Every menu path lies under "/dashboard", so whenever any menu item is
   * highlighted the Dashboard item is highlighted as well.
   */
  lemma DashboardActiveWithAnyItem(item: MenuItem, pathname: string)
    requires item in MenuItems
    requires IsActive(item.path, pathname)
    ensures IsActive(DashboardPath, pathname)
  {
    assert StartsWith(item.path, DashboardPath);
    StartsWithTransitive(pathname, item.path, DashboardPath);
  }

  /** The menu items highlighted on a page, in menu order. */
  function ActiveItems(pathname: string): seq<MenuItem> {
    Filter(MenuItems, (item: MenuItem) => IsActive(item.path, pathname))
  }

  /** On the books page two items are highlighted: Dashboard and Books. */
  lemma BooksPageHighlightsTwoItems()
    ensures ActiveItems("/dashboard/books") == [MenuItems[0], MenuItems[2]]
  {
    var pathname := "/dashboard/books";
    assert IsActive(MenuItems[0].path, pathname);
    assert !IsActive(MenuItems[1].path, pathname);
    OwnPathIsActive(MenuItems[2].path);
    assert !IsActive(MenuItems[3].path, pathname);
    assert !IsActive(MenuItems[4].path, pathname);
    var active := (item: MenuItem) => IsActive(item.path, pathname);
    assert MenuItems[4..][1..] == [];
    assert Filter(MenuItems[4..], active) == [];
    assert MenuItems[3..][1..] == MenuItems[4..];
    assert Filter(MenuItems[3..], active) == [];
    assert MenuItems[2..][1..] == MenuItems[3..];
    assert Filter(MenuItems[2..], active) == [MenuItems[2]];
    assert MenuItems[1..][1..] == MenuItems[2..];
    assert Filter(MenuItems[1..], active) == [MenuItems[2]];
  }
}
