/** The navigation bar: which menu entry is highlighted for a path. The
    desktop and the mobile menus use the same rule. */
module Layout {
  /** `navItems`, by target path. */
  const NavTargets: seq<string> := ["/", "/players", "/rounds", "/draws", "/prizes", "/backup"]

  /** `location.pathname === item.to || (item.to !== "/" && location.pathname.startsWith(item.to))`. */
  predicate IsActive(path: string, to: string): (r: bool)
    ensures r <==> to <= path && (to != "/" || path == "/")
  {
    path == to || (to != "/" && to <= path)
  }

  /** Two prefixes of the same path are prefixes of one another. */
  lemma PrefixesComparable(a: string, b: string, path: string)
    ensures a <= path && b <= path ==> a <= b || b <= a
  {
    if a <= path && b <= path && |a| <= |b| {
      assert forall k :: 0 <= k < |a| ==> a[k] == path[k] == b[k];
    } else if a <= path && b <= path {
      assert forall k :: 0 <= k < |b| ==> a[k] == path[k] == b[k];
    }
  }

  /** The home entry is highlighted only on "/" itself. */
  lemma HomeOnlyOnRoot(path: string)
    ensures IsActive(path, "/") <==> path == "/"
  {
  }

  /** The prefix rule also highlights "/rounds" on "/roundsX". */
  lemma PrefixMatchesLongerWord()
    ensures IsActive("/roundsX", "/rounds")
    ensures !IsActive("/rounds", "/roundsX")
  {
    assert "/rounds" <= "/roundsX";
    assert "/roundsX"[7] != "/rounds"[|"/rounds"| - 1];
  }

  /** No target is a prefix of another one. */
  lemma TargetsPrefixFree()
    ensures forall i, j ::
              0 <= i < |NavTargets| && 0 <= j < |NavTargets| && i != j && NavTargets[i] != "/" ==>
                !(NavTargets[i] <= NavTargets[j])
  {
    var t := NavTargets;
    assert t[1][1] == 'p' && t[2][1] == 'r' && t[3][1] == 'd' && t[4][1] == 'p' && t[5][1] == 'b';
    assert t[1][2] == 'l' && t[4][2] == 'r';
  }

  /** For any path at most one entry is highlighted. */
  lemma AtMostOneActive(path: string)
    ensures forall i, j ::
              0 <= i < j < |NavTargets| && IsActive(path, NavTargets[i]) ==>
                !IsActive(path, NavTargets[j])
  {
    TargetsPrefixFree();
    forall i, j | 0 <= i < j < |NavTargets| && IsActive(path, NavTargets[i])
      ensures !IsActive(path, NavTargets[j])
    {
      PrefixesComparable(NavTargets[i], NavTargets[j], path);
    }
  }
}
