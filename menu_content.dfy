/** src/components/layout/sidebar/MenuContent.tsx: the sidebar's three
    item lists, which of them a user sees, and the expand/collapse record
    of items with sub-items. */
module MenuContent {
  import opened Wrappers
  import opened Text
  import opened RouteTypes
  import opened AppRoutes
  import opened AuthorRoutes
  import opened GenreRoutes
  import opened SourceRoutes

  /** `MenuItem` (src/components/layout/sidebar/menuItem.tsx), without its
      icon. */
  datatype MenuItem = MenuItem(moduleName: Option<string>, itemLabel: string, to: string, items: Option<seq<MenuItem>>)

  /** `Role` (the role enumeration is not part of this model): the
      administrator role and any other. */
  datatype Role = Admin | OtherRole(name: string)

  /** The signed-in user, as far as the menu looks at it: an empty role is
      absent. */
  datatype User = User(role: Option<Role>)

  /** `isAdmin` (src/types/user/User.ts). */
  predicate IsAdmin(role: Role) { role == Admin }

  function Item(itemLabel: string, to: string): MenuItem {
    MenuItem(None, itemLabel, to, None)
  }

  const MainListItems: seq<MenuItem> := [
    MenuItem(Some("home"), "Home", Home, None),
    MenuItem(Some("notification"), "Notification", Notification, None)
  ]

  const AdminListItems: seq<MenuItem> := [
    Item("Analytics", Analytics), Item("Dashboard", Dashboard),
    Item("Source", Sources), Item("Genre", Genres), Item("Author", Authors)
  ]

  const SecondaryListItems: seq<MenuItem> := [
    Item("Settings", Settings), Item("Assistance", Assistance), Item("About", About), Item("Feedback", Feedback)
  ]

  /** `isActive`: exact equality, not a prefix test, so an item is
      selected on its own path and never on a page below it. */
  predicate IsActive(pathname: string, to: string)
    ensures pathname == to ==> IsActive(pathname, to)
    ensures IsActive(pathname, to) ==> !StartsWith(pathname, to + "/")
  {
    pathname == to
  }

  /** On an author's detail page no admin item is selected, not even
      "Author", whose list path the detail path extends. */
  lemma DetailPageSelectsNoAdminItem(idAuthor: string)
    ensures StartsWith(PathAuthor(idAuthor), AdminListItems[4].to + "/")
    ensures forall item :: item in AdminListItems ==> !IsActive(PathAuthor(idAuthor), item.to)
  {
    var p := PathAuthor(idAuthor);
    assert p == "/authors/" + idAuthor;
    assert |p| > |Authors| && p[1] == 'a' && p[2] == 'u';
    assert Analytics[2] == 'n' && Dashboard[1] == 'd' && Sources[1] == 's' && Genres[1] == 'g';
  }

  /** `item.items && item.items.length > 0`. */
  predicate HasSubItems(item: MenuItem) {
    item.items.Some? && |item.items.value| > 0
  }

  /** `openItems[label]`: a label never toggled counts as closed. */
  function IsOpen(openItems: map<string, bool>, key: string): bool {
    key in openItems && openItems[key]
  }

  /** `{ ...prev, [label]: !prev[label] }`. */
  function Toggle(openItems: map<string, bool>, key: string): (m: map<string, bool>)
    ensures IsOpen(m, key) == !IsOpen(openItems, key)
    ensures forall l :: l != key ==> IsOpen(m, l) == IsOpen(openItems, l)
    ensures forall l :: l != key && l in openItems ==> l in m && m[l] == openItems[l]
  {
    openItems[key := !IsOpen(openItems, key)]
  }

  /** Toggling the same label twice restores every label's open state
      (a label never seen before is then recorded as closed). */
  lemma ToggleTwice(openItems: map<string, bool>, key: string, l: string)
    ensures IsOpen(Toggle(Toggle(openItems, key), key), l) == IsOpen(openItems, l)
  {
  }

  /** A main item is listed unless it belongs to the 'users' module and
      the user has no role: it is hidden exactly from a signed-out user or
      one without a role, and only when it is a 'users' item. */
  predicate MainItemVisible(item: MenuItem, user: Option<User>)
    ensures !MainItemVisible(item, user) <==>
              item.moduleName == Some("users") && (user.None? || user.value.role.None?)
  {
    !(item.moduleName == Some("users")) || (user.Some? && user.value.role.Some?)
  }

  /** `user && user.role && isAdmin(user.role)`: the admin list is shown
      to exactly one kind of user, the signed-in administrator. */
  predicate AdminListVisible(user: Option<User>)
    ensures AdminListVisible(user) <==> user == Some(User(Some(Admin)))
  {
    user.Some? && user.value.role.Some? && IsAdmin(user.value.role.value)
  }

  /** Neither main item belongs to the 'users' module, so both are always
      listed, signed in or not. */
  lemma Visibility(user: Option<User>)
    ensures forall item :: item in MainListItems ==> MainItemVisible(item, user)
  {
  }

  /** No item of the three lists has sub-items, so a click on any of them
      navigates. */
  lemma MenuItemsAreLeaves()
    ensures forall item :: item in MainListItems + AdminListItems + SecondaryListItems ==> !HasSubItems(item)
  {
  }

  /** The admin entries for sources, genres and authors lead to routed
      list pages. */
  lemma RoutedAdminTargets()
    ensures forall i :: 2 <= i < 5 ==> exists r :: r in AllRoutes && r.path == AdminListItems[i].to
  {
    assert AllRoutes[10].path == Sources;
    assert AllRoutes[5].path == Genres;
    assert AllRoutes[3].path == Authors;
  }

  /** The admin entries for analytics and dashboard lead to paths the
      route table does not have. */
  lemma UnroutedAdminTargets()
    ensures forall i :: 0 <= i < 2 ==> forall r :: r in AllRoutes ==> r.path != AdminListItems[i].to
  {
  }

  class Menu {
    var openItems: map<string, bool>

    constructor()
      ensures openItems == map[]
    {
      openItems := map[];
    }

    /** `handleClick`: an item with sub-items flips its own open state and
        navigates nowhere; any other item navigates to its target and
        leaves the record alone. */
    method HandleClick(item: MenuItem) returns (navigate: Option<string>)
      modifies this
      ensures HasSubItems(item) ==> navigate.None? && openItems == Toggle(old(openItems), item.itemLabel)
      ensures !HasSubItems(item) ==> navigate == Some(item.to) && openItems == old(openItems)
    {
      if HasSubItems(item) {
        openItems := Toggle(openItems, item.itemLabel);
        navigate := None;
      } else {
        navigate := Some(item.to);
      }
    }
  }
}
