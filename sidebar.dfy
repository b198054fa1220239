/** The side menu: which tabs each role sees, and which of them is disabled. */
module Sidebar {
  import opened Wrappers
  import opened Types
  import opened Seqs
  import App

  datatype MenuItem = MenuItem(id: string, title: string, roles: seq<UserRole>, disabled: bool)

  /** `menuItems`: only the library entry can be disabled, and only while the user is blocked. */
  function MenuItems(isBlocked: bool): seq<MenuItem> {
    [ MenuItem("dashboard", "داشبورد", [Citizen, Teacher, Admin], false),
      MenuItem("profile", "پروفایل من", [Citizen, Teacher, Admin], false),
      MenuItem("placement", "تعیین سطح", [Citizen], false),
      MenuItem("library", "کتابخانه محتوا", [Citizen], isBlocked),
      MenuItem("teacher", "پنل استاد", [Teacher], false),
      MenuItem("admin", "پنل ادمین", [Admin], false) ]
  }

  function ShownTo(role: UserRole): MenuItem -> bool {
    (item: MenuItem) => role in item.roles
  }

  /** `filteredItems`: the entries whose role list includes the user's role, in menu order. */
  function FilteredItems(role: UserRole, isBlocked: bool): (r: seq<MenuItem>)
    ensures forall item :: item in r <==> item in MenuItems(isBlocked) && role in item.roles
  {
    Filter(MenuItems(isBlocked), ShownTo(role))
  }

  /** Filtering six entries of which exactly the first four pass keeps those four. */
  lemma KeepsFirstFour<T(!new)>(m: seq<T>, p: T -> bool)
    requires |m| == 6 && forall j :: 0 <= j < 6 ==> (p(m[j]) <==> j < 4)
    ensures Filter(m, p) == m[..4]
  {
    FilterSplit(m, 4, p);
    FilterPrefixAll(m, 4, p);
    FilterSuffixNone(m, 4, p);
    assert m[..4] + [] == m[..4];
  }

  /** Filtering six entries of which exactly the first two and the `k`-th pass keeps those three. */
  lemma KeepsFirstTwoAnd<T(!new)>(m: seq<T>, p: T -> bool, k: nat)
    requires |m| == 6 && 2 <= k < 6 && p(m[0]) && p(m[1])
    requires forall j :: 2 <= j < 6 ==> (p(m[j]) <==> j == k)
    ensures Filter(m, p) == m[..2] + [m[k]]
  {
    FilterSplit(m, 2, p);
    FilterPrefixAll(m, 2, p);
    FilterOnlyOne(m[2..], k - 2, p);
  }

  /** A citizen's menu: the first four entries (dashboard, profile, placement, library), in table order. */
  lemma CitizenMenu(isBlocked: bool)
    ensures FilteredItems(Citizen, isBlocked) == MenuItems(isBlocked)[..4]
  {
    KeepsFirstFour(MenuItems(isBlocked), ShownTo(Citizen));
  }

  /** A teacher's menu: dashboard, profile and the teacher panel. */
  lemma TeacherMenu(isBlocked: bool)
    ensures var m := MenuItems(isBlocked); FilteredItems(Teacher, isBlocked) == m[..2] + [m[4]]
  {
    KeepsFirstTwoAnd(MenuItems(isBlocked), ShownTo(Teacher), 4);
  }

  /** An admin's menu: dashboard, profile and the admin panel. */
  lemma AdminMenu(isBlocked: bool)
    ensures var m := MenuItems(isBlocked); FilteredItems(Admin, isBlocked) == m[..2] + [m[5]]
  {
    KeepsFirstTwoAnd(MenuItems(isBlocked), ShownTo(Admin), 5);
  }

  /** The only entry ever disabled is the library, exactly while the user is blocked. */
  lemma OnlyLibraryDisabled(role: UserRole, isBlocked: bool)
    ensures forall item :: item in FilteredItems(role, isBlocked) ==>
      (item.disabled <==> item.id == "library" && isBlocked)
  {
    var m := MenuItems(isBlocked);
    forall item | item in FilteredItems(role, isBlocked)
      ensures item.disabled <==> item.id == "library" && isBlocked
    {
      assert item in m;
      var i :| 0 <= i < 6 && m[i] == item;
      EntryDisabled(isBlocked, i);
    }
  }

  /** Entry by entry: only the library entry can be disabled. */
  lemma EntryDisabled(isBlocked: bool, i: nat)
    requires i < 6
    ensures var item := MenuItems(isBlocked)[i]; item.disabled <==> item.id == "library" && isBlocked
  {
    var id := MenuItems(isBlocked)[i].id;
    if i == 0 {
      assert id == "dashboard";
    } else if i == 1 {
      assert id == "profile";
    } else if i == 2 {
      assert id == "placement";
    } else if i == 3 {
      assert id == "library";
    } else if i == 4 {
      assert id == "teacher";
    } else {
      assert id == "admin";
    }
  }

  /** Every enabled entry opens a page: never the "under construction" placeholder. For a placed user each
      entry opens a page of its own (two entries with different ids never show the same view), and the profile
      entry opens the profile page. */
  lemma EveryEntryOpensAPage(user: User, exams: seq<Exam>)
    ensures forall item :: item in FilteredItems(user.role, App.Blocked(user)) && !item.disabled ==>
      App.RenderView(user, item.id, None, exams) != App.UnderConstruction
    ensures !App.Blocked(user) ==> App.RenderView(user, "profile", None, exams) == App.ProfileView
    ensures !App.Blocked(user) ==>
      forall a, b :: a in FilteredItems(user.role, false) && b in FilteredItems(user.role, false) && a.id != b.id ==>
        App.RenderView(user, a.id, None, exams) != App.RenderView(user, b.id, None, exams)
  {
    NoEntryOpensPlaceholder(user, exams);
    if !App.Blocked(user) {
      ProfileEntryOpensProfile(user, exams);
      EntriesOpenDistinctPages(user, exams);
    }
  }

  /** No enabled entry opens the placeholder, blocked or not. */
  lemma NoEntryOpensPlaceholder(user: User, exams: seq<Exam>)
    ensures forall item :: item in FilteredItems(user.role, App.Blocked(user)) && !item.disabled ==>
      App.RenderView(user, item.id, None, exams) != App.UnderConstruction
  {
    var m := MenuItems(App.Blocked(user));
    forall item | item in FilteredItems(user.role, App.Blocked(user)) && !item.disabled
      ensures App.RenderView(user, item.id, None, exams) != App.UnderConstruction
    {
      assert item in m;
      var i :| 0 <= i < 6 && m[i] == item;
      EntryOpensAPage(user, exams, i);
    }
  }

  /** With the profile page routed, a placed user's profile tab shows the profile page. */
  lemma ProfileEntryOpensProfile(user: User, exams: seq<Exam>)
    requires !App.Blocked(user)
    ensures App.RenderView(user, "profile", None, exams) == App.ProfileView
  {
    App.ProfileTabFallsThrough(user, exams);
  }

  /** A placed user's entries with different ids open different views. */
  lemma EntriesOpenDistinctPages(user: User, exams: seq<Exam>)
    requires !App.Blocked(user)
    ensures forall a, b :: a in FilteredItems(user.role, false) && b in FilteredItems(user.role, false) && a.id != b.id ==>
      App.RenderView(user, a.id, None, exams) != App.RenderView(user, b.id, None, exams)
  {
    var m := MenuItems(false);
    forall a, b | a in FilteredItems(user.role, false) && b in FilteredItems(user.role, false) && a.id != b.id
      ensures App.RenderView(user, a.id, None, exams) != App.RenderView(user, b.id, None, exams)
    {
      assert a in m && b in m;
      var i :| 0 <= i < 6 && m[i] == a;
      var j :| 0 <= j < 6 && m[j] == b;
      PairOpensDistinctPages(user, exams, i, j);
    }
  }

  /** Two different entries of the table open different views for a placed user. */
  lemma PairOpensDistinctPages(user: User, exams: seq<Exam>, i: nat, j: nat)
    requires !App.Blocked(user) && i < 6 && j < 6 && i != j
    ensures App.RenderView(user, MenuItems(false)[i].id, None, exams) !=
            App.RenderView(user, MenuItems(false)[j].id, None, exams)
  {
    EntryView(user, exams, i);
    EntryView(user, exams, j);
    var p := EntryPages();
    assert p[i] != p[j];
  }

  /** The view each of the six entries opens for a placed user, in table order. */
  function EntryPages(): seq<App.View> {
    [App.DashboardView, App.ProfileView, App.PlacementView, App.LibraryView, App.TeacherView, App.AdminView]
  }

  /** Entry by entry: a placed user's click on the `i`-th entry opens the `i`-th page. */
  lemma EntryView(user: User, exams: seq<Exam>, i: nat)
    requires !App.Blocked(user) && i < 6
    ensures App.RenderView(user, MenuItems(false)[i].id, None, exams) == EntryPages()[i]
  {
    var id := MenuItems(false)[i].id;
    if i == 0 {
      assert id == "dashboard";
    } else if i == 1 {
      assert id == "profile";
      App.ProfileTabFallsThrough(user, exams);
    } else if i == 2 {
      assert id == "placement";
    } else if i == 3 {
      assert id == "library";
    } else if i == 4 {
      assert id == "teacher";
    } else {
      assert id == "admin";
    }
  }

  lemma EntryOpensAPage(user: User, exams: seq<Exam>, i: nat)
    requires i < 6
    ensures App.RenderView(user, MenuItems(App.Blocked(user))[i].id, None, exams) != App.UnderConstruction
  {
    var id := MenuItems(App.Blocked(user))[i].id;
    if i == 0 {
      assert id == "dashboard";
    } else if i == 1 {
      assert id == "profile";
    } else if i == 2 {
      assert id == "placement";
    } else if i == 3 {
      assert id == "library";
    } else if i == 4 {
      assert id == "teacher";
    } else {
      assert id == "admin";
    }
  }

  /** As written, the profile entry, shown to every role, opens the placeholder for any placed user. */
  lemma ProfileEntryOpensPlaceholder(user: User, exams: seq<Exam>)
    requires !App.Blocked(user)
    ensures exists item ::
      item in FilteredItems(user.role, App.Blocked(user)) && !item.disabled &&
      App.RenderViewAsWritten(user, item.id, None, exams) == App.UnderConstruction
  {
    var profile := MenuItems(false)[1];
    assert profile in FilteredItems(user.role, false);
    App.ProfileTabFallsThrough(user, exams);
  }
}
