/**
 * The fixed tables of constants.tsx: the shift schedule, the task types and
 * the navigation items with the roles allowed to see each.
 */
module Constants {
  import opened Types

  /** A shift covers the hours `start <= hour < end` (24-hour clock). */
  datatype Shift = Shift(id: string, caption: string, start: int, end: int)

  const SHIFTS: seq<Shift> := [
    Shift("shift1", "9:00 - 11:00", 9, 11),
    Shift("shift2", "11:00 - 1:00", 11, 13),
    Shift("shift3", "1:00 - 3:00", 13, 15)
  ]

  predicate Covers(s: Shift, hour: int) {
    s.start <= hour < s.end
  }

  datatype TaskType = TaskType(id: string, name: string)

  const CallCenterType: string := "كول سنتر"
  const OtherType: string := "أخرى"

  const TASK_TYPES: seq<TaskType> := [
    TaskType("1", "تفعيل بريد"),
    TaskType("2", "كلاس روم"),
    TaskType("3", "دعم فني"),
    TaskType("4", "تدريب"),
    TaskType("6", CallCenterType),
    TaskType("5", OtherType)
  ]

  datatype NavItem = NavItem(id: string, caption: string, roles: seq<string>)

  const NAV_ITEMS: seq<NavItem> := [
    NavItem("dashboard", "لوحة التحكم", ["مدير النظام", "مشرف", "مستخدم عادي"]),
    NavItem("attendance", "تسجيل الحضور", ["مدير النظام", "مشرف", "مستخدم عادي"]),
    NavItem("callCenter", "إحصائيات الكول سنتر", ["مدير النظام", "مشرف"]),
    NavItem("newTask", "توثيق مهمة", ["مدير النظام", "مشرف", "مستخدم عادي"]),
    NavItem("reports", "التقارير", ["مدير النظام", "مشرف"]),
    NavItem("analytics", "تحليلات ذكية", ["مدير النظام", "مشرف"]),
    NavItem("users", "المستخدمين", ["مدير النظام"]),
    NavItem("knowledge", "قاعدة المعرفة", ["مدير النظام", "مشرف", "مستخدم عادي"])
  ]

  /**
   * The three shifts are non-empty and back to back: each one ends where the
   * next begins, so the schedule is one contiguous span from 9 to 15.
   */
  lemma ShiftsContiguous()
    ensures |SHIFTS| == 3
    ensures forall i :: 0 <= i < |SHIFTS| ==> SHIFTS[i].start < SHIFTS[i].end
    ensures forall i :: 0 <= i < |SHIFTS| - 1 ==> SHIFTS[i].end == SHIFTS[i + 1].start
    ensures SHIFTS[0].start == 9 && SHIFTS[2].end == 15
  {
  }

  /** Any hour lies in at most one shift. */
  lemma ShiftsDisjoint(hour: int, i: nat, j: nat)
    requires i < |SHIFTS| && j < |SHIFTS|
    requires Covers(SHIFTS[i], hour) && Covers(SHIFTS[j], hour)
    ensures i == j
  {
  }

  /** The six task types have distinct ids and names and include the two default types. */
  lemma TaskTypesDistinct()
    ensures |TASK_TYPES| == 6
    ensures forall i, j :: 0 <= i < j < |TASK_TYPES| ==>
      TASK_TYPES[i].id != TASK_TYPES[j].id && TASK_TYPES[i].name != TASK_TYPES[j].name
    ensures exists i :: 0 <= i < |TASK_TYPES| && TASK_TYPES[i].name == CallCenterType
    ensures exists i :: 0 <= i < |TASK_TYPES| && TASK_TYPES[i].name == OtherType
  {
    assert TASK_TYPES[4].name == CallCenterType;
    assert TASK_TYPES[5].name == OtherType;
  }

  /**
   * Every navigation item admits the administrator; every role string in the
   * table is the display string of a `Role`; only "users" is administrator-only;
   * the item ids are distinct.
   */
  lemma NavItemsRoles()
    ensures |NAV_ITEMS| == 8
    ensures forall i :: 0 <= i < |NAV_ITEMS| ==> RoleName(Admin) in NAV_ITEMS[i].roles
    ensures forall i, k :: 0 <= i < |NAV_ITEMS| && 0 <= k < |NAV_ITEMS[i].roles| ==>
      NAV_ITEMS[i].roles[k] in {RoleName(Admin), RoleName(Supervisor), RoleName(RegularUser)}
    ensures forall i :: 0 <= i < |NAV_ITEMS| ==>
      (NAV_ITEMS[i].roles == [RoleName(Admin)] <==> NAV_ITEMS[i].id == "users")
    ensures forall i, j :: 0 <= i < j < |NAV_ITEMS| ==> NAV_ITEMS[i].id != NAV_ITEMS[j].id
  {
  }
}
