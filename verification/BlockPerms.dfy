/**
 Block layer permissions and the default permission functions that drivers
 use for their children.
 */
module BlockPerms {
  /** BLK_PERM_CONSISTENT_READ, _WRITE, _WRITE_UNCHANGED and _RESIZE. */
  datatype Perms = Perms(consistentRead: bool, write: bool, writeUnchanged: bool, resize: bool)

  const NO_PERMS := Perms(false, false, false, false)
  const ALL_PERMS := Perms(true, true, true, true)

  predicate Within(p: Perms, q: Perms) {
    && (p.consistentRead ==> q.consistentRead)
    && (p.write ==> q.write)
    && (p.writeUnchanged ==> q.writeUnchanged)
    && (p.resize ==> q.resize)
  }

  function Union(p: Perms, q: Perms): Perms {
    Perms(p.consistentRead || q.consistentRead, p.write || q.write,
          p.writeUnchanged || q.writeUnchanged, p.resize || q.resize)
  }

  function Meet(p: Perms, q: Perms): Perms {
    Perms(p.consistentRead && q.consistentRead, p.write && q.write,
          p.writeUnchanged && q.writeUnchanged, p.resize && q.resize)
  }

  /** What a user needs of a node, and what it lets others do with it. */
  datatype Access = Access(perm: Perms, shared: Perms)

  /** `a` needs no more and shares no less than `b`. */
  predicate Looser(a: Access, b: Access) {
    Within(a.perm, b.perm) && Within(b.shared, a.shared)
  }

  /** BDRV_CHILD_DATA, _METADATA, _FILTERED, _COW and _PRIMARY. */
  datatype Role = Role(data: bool, metadata: bool, filtered: bool, cow: bool, primary: bool)

  /** The roles that bdrv_default_perms accepts. */
  predicate RoleOk(role: Role) {
    if role.filtered then !role.data && !role.metadata && !role.cow
    else if role.cow then !role.data && !role.metadata
    else role.metadata || role.data
  }

  /** What the default functions look at in the parent node: whether it is
      writable, and its BDRV_O_NO_IO and BDRV_O_INACTIVE flags. */
  datatype Flags = Flags(writable: bool, noIo: bool, inactive: bool)

  /** DEFAULT_PERM_PASSTHROUGH is every permission, so nothing is left for
      DEFAULT_PERM_UNCHANGED. */
  function FilterDefaultPerms(a: Access): Access {
    Access(Meet(a.perm, ALL_PERMS), Union(Meet(a.shared, ALL_PERMS), NO_PERMS))
  }

  function DefaultPermsForCow(flags: Flags, a: Access): Access {
    var writable := a.shared.write || flags.inactive;
    Access(Perms(a.perm.consistentRead, false, false, false), Perms(true, writable, true, writable))
  }

  function DefaultPermsForStorage(flags: Flags, role: Role, a: Access): Access {
    var f := FilterDefaultPerms(a);
    var p0 := if !role.metadata then f.perm
              else
                var q := if flags.writable then f.perm.(write := true, resize := true) else f.perm;
                if flags.noIo then q else q.(consistentRead := true);
    var s0 := if role.metadata then f.shared.(write := false, resize := false) else f.shared;
    var s1 := if role.data then s0.(resize := false) else s0;
    var p1 := if role.data && p0.writeUnchanged then p0.(write := true) else p0;
    var p2 := if role.data && p1.write then p1.(resize := true) else p1;
    Access(p2, if flags.inactive then s1.(write := true, resize := true) else s1)
  }

  function DefaultPerms(flags: Flags, role: Role, a: Access): Access
    requires RoleOk(role)
  {
    if role.filtered then FilterDefaultPerms(a)
    else if role.cow then DefaultPermsForCow(flags, a)
    else DefaultPermsForStorage(flags, role, a)
  }

  /** Loosening what a node's users ask of it loosens what it asks of its
      children, in every role and with every combination of flags. */
  lemma DefaultPermsMonotone(flags: Flags, role: Role, a: Access, b: Access)
    requires RoleOk(role) && Looser(a, b)
    ensures Looser(DefaultPerms(flags, role, a), DefaultPerms(flags, role, b))
  {
  }
}
