/**
 * The side navigation: the table entries a role may open, and which entry
 * is highlighted.
 */
module Sidebar {
  import opened Seqs
  import opened Types
  import opened Constants

  predicate Allows(role: Role, item: NavItem) {
    RoleName(role) in item.roles
  }

  /** `filteredNavItems`: the table entries listing the role, in table order. */
  function VisibleNavItems(role: Role): (items: seq<NavItem>)
    ensures IsSubseq(items, NAV_ITEMS)
    ensures forall i :: 0 <= i < |items| ==> RoleName(role) in items[i].roles
    ensures forall i :: 0 <= i < |NAV_ITEMS| && RoleName(role) in NAV_ITEMS[i].roles ==> NAV_ITEMS[i] in items
  {
    Filter(item => Allows(role, item), NAV_ITEMS)
  }

  /** The administrator sees the whole table. */
  lemma AdminSeesAll()
    ensures VisibleNavItems(Admin) == NAV_ITEMS && |VisibleNavItems(Admin)| == 8
  {
    NavItemsRoles();
    FilterAll(item => Allows(Admin, item), NAV_ITEMS);
  }

  /** A regular user is never shown the users, reports, analytics or call-centre entries. */
  lemma RegularUserRestricted()
    ensures forall i :: 0 <= i < |VisibleNavItems(RegularUser)| ==>
              VisibleNavItems(RegularUser)[i].id !in {"users", "reports", "analytics", "callCenter"}
  {
    var items := VisibleNavItems(RegularUser);
    forall i | 0 <= i < |items| ensures items[i].id !in {"users", "reports", "analytics", "callCenter"} {
      RegularUserItem(items[i]);
    }
  }

  /** An item of the table that admits the regular user is none of the four restricted ones. */
  lemma RegularUserItem(item: NavItem)
    requires item in NAV_ITEMS && Allows(RegularUser, item)
    ensures item.id !in {"users", "reports", "analytics", "callCenter"}
  {
    var k :| 0 <= k < |NAV_ITEMS| && NAV_ITEMS[k] == item;
    RegularUserEntry(k);
  }

  lemma RegularUserEntry(k: nat)
    requires k < |NAV_ITEMS|
    ensures NAV_ITEMS[k].id in {"users", "reports", "analytics", "callCenter"} ==> RoleName(RegularUser) !in NAV_ITEMS[k].roles
  {
    var restricted := [RoleName(Admin), RoleName(Supervisor)];
    assert RoleName(RegularUser) !in restricted;
    assert RoleName(RegularUser) !in [RoleName(Admin)];
    if k == 2 || k == 4 || k == 5 {
      assert NAV_ITEMS[k].roles == restricted;
    } else if k == 6 {
      assert NAV_ITEMS[k].roles == [RoleName(Admin)];
    }
  }

  /** Exactly the entry whose id is the active tab is highlighted. */
  predicate Highlighted(activeTab: string, item: NavItem) {
    item.id == activeTab
  }

  /** The table's ids are distinct, so at most one entry is highlighted, and clicking an entry highlights that one alone. */
  lemma OneHighlight(role: Role, i: nat, j: nat)
    requires i < |VisibleNavItems(role)| && j < |VisibleNavItems(role)|
    requires Highlighted(VisibleNavItems(role)[i].id, VisibleNavItems(role)[j])
    ensures i == j
  {
    var items := VisibleNavItems(role);
    NavItemsRoles();
    NoDuplicateIds(items, NAV_ITEMS);
  }

  predicate DistinctIds(items: seq<NavItem>) {
    forall i, j :: 0 <= i < j < |items| ==> items[i].id != items[j].id
  }

  /** A subsequence of a list with distinct ids has distinct ids. */
  lemma {:induction false} NoDuplicateIds(a: seq<NavItem>, b: seq<NavItem>)
    requires IsSubseq(a, b) && DistinctIds(b)
    ensures DistinctIds(a)
    decreases |b|
  {
    if |a| > 0 && |b| > 0 {
      assert DistinctIds(b[1..]) by {
        forall i, j | 0 <= i < j < |b[1..]| ensures b[1..][i].id != b[1..][j].id {
          assert b[1..][i] == b[i + 1] && b[1..][j] == b[j + 1];
        }
      }
      if a[0] == b[0] {
        NoDuplicateIds(a[1..], b[1..]);
        SubseqElements(a[1..], b[1..]);
        forall i, j | 0 <= i < j < |a| ensures a[i].id != a[j].id {
          if i == 0 {
            assert a[j] == a[1..][j - 1];
            var k :| 0 <= k < |b[1..]| && b[1..][k] == a[j];
            assert b[k + 1] == a[j];
          } else {
            assert a[i] == a[1..][i - 1] && a[j] == a[1..][j - 1];
          }
        }
      } else {
        NoDuplicateIds(a, b[1..]);
      }
    }
  }
}
