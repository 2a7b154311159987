/**
 * The token-class table of the expression analyser.  The initializer list
 * itokcl names the members of each class in class order, with a 0 closing
 * each class and a 1 ending the list; InitExpression turns it into a
 * 256-entry table from token code to class.
 */
module TokenClass {
  import opened Tokens

  // Token classes, in the order of the initializer list.
  const END: int := 0     // no class
  const ID: int := 1      // terminals
  const OPAR: int := 2    // opening brackets
  const CPAR: int := 3    // closing brackets
  const SUNARY: int := 4  // special unary (^^defined, ...)
  const UNARY: int := 5   // unary operators
  const MULT: int := 6    // * / %
  const ADD: int := 7     // + -
  const SHIFT: int := 8   // << >>
  const REL: int := 9     // comparisons
  const AND: int := 10    // &
  const XOR: int := 11    // ^
  const OR: int := 12     // |

  // The members of each class.
  const IdGroup: seq<int> := [CONST, FCONST, SYMBOL]
  const OparGroup: seq<int> := ['(' as int, '[' as int, '{' as int]
  const CparGroup: seq<int> := [')' as int, ']' as int, '}' as int]
  const SunaryGroup: seq<int> := [CR_DEFINED, CR_REFERENCED, CR_STREQ, CR_MACDEF, CR_DATE, CR_TIME, CR_ABSCOUNT]
  const UnaryGroup: seq<int> := ['!' as int, '~' as int, UNMINUS]
  const MultGroup: seq<int> := ['*' as int, '/' as int, '%' as int]
  const AddGroup: seq<int> := ['+' as int, '-' as int]
  const ShiftGroup: seq<int> := [SHL, SHR]
  const RelGroup: seq<int> := [LE, GE, '<' as int, '>' as int, NE, '=' as int]
  const AndGroup: seq<int> := ['&' as int]
  const XorGroup: seq<int> := ['^' as int]
  const OrGroup: seq<int> := ['|' as int]

  const Groups: seq<seq<int>> :=
    [IdGroup, OparGroup, CparGroup, SunaryGroup, UnaryGroup, MultGroup,
     AddGroup, ShiftGroup, RelGroup, AndGroup, XorGroup, OrGroup]

  /** itokcl: 0, then each class's members followed by 0, then 1. */
  const ItokCl: seq<int> :=
    [0] + IdGroup + [0] + OparGroup + [0] + CparGroup + [0] + SunaryGroup + [0]
    + UnaryGroup + [0] + MultGroup + [0] + AddGroup + [0] + ShiftGroup + [0]
    + RelGroup + [0] + AndGroup + [0] + XorGroup + [0] + OrGroup + [0] + [1]

  /** The class of a token code, read off the initializer list.  Later
      entries of the list overwrite earlier ones, so the groups are tried
      from the last to the first. */
  function Class(c: int): (k: int)
    ensures END <= k <= OR
  {
    if c in OrGroup then OR
    else if c in XorGroup then XOR
    else if c in AndGroup then AND
    else if c in RelGroup then REL
    else if c in ShiftGroup then SHIFT
    else if c in AddGroup then ADD
    else if c in MultGroup then MULT
    else if c in UnaryGroup then UNARY
    else if c in SunaryGroup then SUNARY
    else if c in CparGroup then CPAR
    else if c in OparGroup then OPAR
    else if c in IdGroup then ID
    else END
  }

  // ---------------------------------------------------------------------
  // Semantics of the initialisation loop over any list
  // ---------------------------------------------------------------------

  /** Number of 0 separators in a list. */
  function Zeros(s: seq<int>): nat
  {
    if s == [] then 0 else Zeros(s[..|s| - 1]) + (if s[|s| - 1] == 0 then 1 else 0)
  }

  predicate CodesInRange(list: seq<int>)
  {
    forall i :: 0 <= i < |list| ==> 0 <= list[i] < 256
  }

  /** The table after the loop has consumed list[..k]: every entry starts as
      END, a 0 moves on to the next class, and any other code is assigned
      the class reached so far. */
  function TableAfter(list: seq<int>, k: nat): (t: seq<int>)
    requires k <= |list| && CodesInRange(list)
    ensures |t| == 256
  {
    if k == 0 then seq(256, _ => END)
    else
      var t := TableAfter(list, k - 1);
      if list[k - 1] == 0 then t else t[list[k - 1] := Zeros(list[..k - 1])]
  }

  lemma {:induction false} ZerosAppend(a: seq<int>, b: seq<int>)
    ensures Zeros(a + b) == Zeros(a) + Zeros(b)
    decreases |b|
  {
    if b == [] {
      assert a + b == a;
    } else {
      assert (a + b)[..|a + b| - 1] == a + b[..|b| - 1];
      ZerosAppend(a, b[..|b| - 1]);
    }
  }

  /** The table depends only on the part of the list consumed so far. */
  lemma {:induction false} TablePrefix(list: seq<int>, more: seq<int>, k: nat)
    requires k <= |list| && CodesInRange(list) && CodesInRange(list + more)
    ensures TableAfter(list + more, k) == TableAfter(list, k)
    decreases k
  {
    if k > 0 {
      TablePrefix(list, more, k - 1);
      assert (list + more)[..k - 1] == list[..k - 1];
    }
  }

  /** Entries whose code does not occur in list[k1..k2] are not touched
      while the loop consumes that stretch. */
  lemma {:induction false} TableUntouched(list: seq<int>, k1: nat, k2: nat, c: int)
    requires k1 <= k2 <= |list| && CodesInRange(list) && 0 <= c < 256
    requires c == 0 || c !in list[k1..k2]
    ensures TableAfter(list, k2)[c] == TableAfter(list, k1)[c]
    decreases k2
  {
    if k2 > k1 {
      assert list[k2 - 1] == list[k1..k2][k2 - 1 - k1];
      TableUntouched(list, k1, k2 - 1, c);
    }
  }

  /** A code absent from the consumed list keeps class END. */
  lemma {:induction false} AbsentIsEnd(list: seq<int>, k: nat, c: int)
    requires k <= |list| && CodesInRange(list) && 0 <= c < 256
    requires c == 0 || c !in list[..k]
    ensures TableAfter(list, k)[c] == END
  {
    assert list[..k] == list[0..k];
    TableUntouched(list, 0, k, c);
  }

  /** A code's class is the number of 0 separators before its last
      occurrence in the consumed list. */
  lemma {:induction false} ClassIsZerosBefore(list: seq<int>, k: nat, j: nat)
    requires k <= |list| && CodesInRange(list) && j < k
    requires list[j] != 0 && list[j] !in list[j + 1..k]
    ensures TableAfter(list, k)[list[j]] == Zeros(list[..j])
  {
    TableUntouched(list, j + 1, k, list[j]);
  }

  // ---------------------------------------------------------------------
  // Lists made of groups
  // ---------------------------------------------------------------------

  /** A leading 0, then each of the first k groups followed by a 0. */
  function Join(gs: seq<seq<int>>, k: nat): seq<int>
    requires k <= |gs|
  {
    if k == 0 then [0] else Join(gs, k - 1) + gs[k - 1] + [0]
  }

  /** The class a list of groups gives a code: the number of the last
      group that contains it, or END. */
  function GroupClass(gs: seq<seq<int>>, k: nat, c: int): int
    requires k <= |gs|
  {
    if k == 0 then END else if c in gs[k - 1] then k else GroupClass(gs, k - 1, c)
  }

  predicate GroupsWellFormed(gs: seq<seq<int>>)
  {
    forall i, j :: 0 <= i < |gs| && 0 <= j < |gs[i]| ==> 2 <= gs[i][j] < 256
  }

  predicate NoZero(g: seq<int>)
  {
    forall i :: 0 <= i < |g| ==> g[i] != 0
  }

  lemma {:induction false} NoZeros(g: seq<int>)
    requires NoZero(g)
    ensures Zeros(g) == 0
    decreases |g|
  {
    if g != [] {
      NoZeros(g[..|g| - 1]);
    }
  }

  lemma {:induction false} JoinZeros(gs: seq<seq<int>>, k: nat)
    requires k <= |gs| && GroupsWellFormed(gs)
    ensures Zeros(Join(gs, k)) == k + 1
  {
    if k == 0 {
      assert [0][..0] == [];
    } else {
      var p := Join(gs, k - 1);
      var g := gs[k - 1];
      JoinZeros(gs, k - 1);
      assert NoZero(g);
      NoZeros(g);
      ZerosAppend(p, g);
      ZerosAppend(p + g, [0]);
      assert Zeros([0]) == 1 by { assert [0][..0] == []; }
    }
  }

  lemma {:induction false} JoinRange(gs: seq<seq<int>>, k: nat)
    requires k <= |gs| && GroupsWellFormed(gs)
    ensures CodesInRange(Join(gs, k))
    ensures forall i :: 0 <= i < |Join(gs, k)| ==> Join(gs, k)[i] != 1
  {
    if k > 0 {
      var p := Join(gs, k - 1);
      var g := gs[k - 1];
      JoinRange(gs, k - 1);
      var r := p + g + [0];
      forall i | 0 <= i < |r|
        ensures 0 <= r[i] < 256 && r[i] != 1
      {
        if i < |p| {
          assert r[i] == p[i];
        } else if i < |p| + |g| {
          assert r[i] == g[i - |p|];
        }
      }
    }
  }

  /** Consuming a group after the prefix: each member so far gets the class
      reached at the start of the group. */
  lemma {:induction false} TableOverGroup(pre: seq<int>, g: seq<int>, rest: seq<int>, m: nat, c: int)
    requires m <= |g| && NoZero(g)
    requires CodesInRange(pre + g + rest) && 0 <= c < 256
    ensures TableAfter(pre + g + rest, |pre| + m)[c]
         == if c in g[..m] then Zeros(pre) else TableAfter(pre + g + rest, |pre|)[c]
    decreases m
  {
    var list := pre + g + rest;
    if m > 0 {
      TableOverGroup(pre, g, rest, m - 1, c);
      assert list[|pre| + m - 1] == g[m - 1];
      assert list[..|pre| + m - 1] == pre + g[..m - 1];
      ZerosAppend(pre, g[..m - 1]);
      NoZeros(g[..m - 1]);
      assert g[..m] == g[..m - 1] + [g[m - 1]];
    }
  }

  /** Consuming a whole group and its closing 0 after a prefix. */
  lemma {:induction false} AppendGroup(pre: seq<int>, g: seq<int>, c: int)
    requires CodesInRange(pre) && CodesInRange(pre + g + [0]) && NoZero(g) && 0 <= c < 256
    ensures TableAfter(pre + g + [0], |pre + g + [0]|)[c]
         == if c in g then Zeros(pre) else TableAfter(pre, |pre|)[c]
  {
    var list := pre + g + [0];
    TableOverGroup(pre, g, [0], |g|, c);
    assert g[..|g|] == g;
    assert list == pre + (g + [0]);
    TablePrefix(pre, g + [0], |pre|);
    assert list[|list| - 1] == 0;
  }

  /** Appending one group and its closing 0 gives the group's members
      class k and leaves every other entry as it was. */
  lemma {:induction false} JoinStep(gs: seq<seq<int>>, k: nat, c: int)
    requires 0 < k <= |gs| && GroupsWellFormed(gs) && 0 <= c < 256
    ensures CodesInRange(Join(gs, k - 1)) && CodesInRange(Join(gs, k))
    ensures TableAfter(Join(gs, k), |Join(gs, k)|)[c]
         == if c in gs[k - 1] then k else TableAfter(Join(gs, k - 1), |Join(gs, k - 1)|)[c]
  {
    JoinRange(gs, k);
    JoinRange(gs, k - 1);
    JoinZeros(gs, k - 1);
    assert NoZero(gs[k - 1]);
    AppendGroup(Join(gs, k - 1), gs[k - 1], c);
  }

  /** The table built from a joined list of groups is GroupClass. */
  lemma {:induction false} JoinTable(gs: seq<seq<int>>, k: nat, c: int)
    requires k <= |gs| && GroupsWellFormed(gs) && 0 <= c < 256
    ensures CodesInRange(Join(gs, k))
    ensures TableAfter(Join(gs, k), |Join(gs, k)|)[c] == GroupClass(gs, k, c)
  {
    JoinRange(gs, k);
    if k == 0 {
      assert Join(gs, 0) == [0];
    } else {
      JoinStep(gs, k, c);
      JoinTable(gs, k - 1, c);
    }
  }

  // ---------------------------------------------------------------------
  // The assembler's own list
  // ---------------------------------------------------------------------

  lemma ItokClIsJoin()
    ensures ItokCl == Join(Groups, 12) + [1]
  {
    assert Join(Groups, 1) == Join(Groups, 0) + IdGroup + [0];
    assert Join(Groups, 2) == Join(Groups, 1) + OparGroup + [0];
    assert Join(Groups, 3) == Join(Groups, 2) + CparGroup + [0];
    assert Join(Groups, 4) == Join(Groups, 3) + SunaryGroup + [0];
    assert Join(Groups, 5) == Join(Groups, 4) + UnaryGroup + [0];
    assert Join(Groups, 6) == Join(Groups, 5) + MultGroup + [0];
    assert Join(Groups, 7) == Join(Groups, 6) + AddGroup + [0];
    assert Join(Groups, 8) == Join(Groups, 7) + ShiftGroup + [0];
    assert Join(Groups, 9) == Join(Groups, 8) + RelGroup + [0];
    assert Join(Groups, 10) == Join(Groups, 9) + AndGroup + [0];
    assert Join(Groups, 11) == Join(Groups, 10) + XorGroup + [0];
    assert Join(Groups, 12) == Join(Groups, 11) + OrGroup + [0];
  }

  lemma GroupsOk()
    ensures GroupsWellFormed(Groups)
  {
    forall i, x | 0 <= i < |Groups| && x in Groups[i]
      ensures 2 <= x < 256
    {
      assert i in {0, 1, 2, 3, 4, 5, 6, 7, 8, 9, 10, 11};
    }
  }

  lemma {:induction false} GroupClassIsClass(c: int)
    ensures GroupClass(Groups, 12, c) == Class(c)
  {
    assert GroupClass(Groups, 12, c) == (if c in OrGroup then 12 else GroupClass(Groups, 11, c));
    assert GroupClass(Groups, 11, c) == (if c in XorGroup then 11 else GroupClass(Groups, 10, c));
    assert GroupClass(Groups, 10, c) == (if c in AndGroup then 10 else GroupClass(Groups, 9, c));
    assert GroupClass(Groups, 9, c) == (if c in RelGroup then 9 else GroupClass(Groups, 8, c));
    assert GroupClass(Groups, 8, c) == (if c in ShiftGroup then 8 else GroupClass(Groups, 7, c));
    assert GroupClass(Groups, 7, c) == (if c in AddGroup then 7 else GroupClass(Groups, 6, c));
    assert GroupClass(Groups, 6, c) == (if c in MultGroup then 6 else GroupClass(Groups, 5, c));
    assert GroupClass(Groups, 5, c) == (if c in UnaryGroup then 5 else GroupClass(Groups, 4, c));
    assert GroupClass(Groups, 4, c) == (if c in SunaryGroup then 4 else GroupClass(Groups, 3, c));
    assert GroupClass(Groups, 3, c) == (if c in CparGroup then 3 else GroupClass(Groups, 2, c));
    assert GroupClass(Groups, 2, c) == (if c in OparGroup then 2 else GroupClass(Groups, 1, c));
    assert GroupClass(Groups, 1, c) == (if c in IdGroup then 1 else GroupClass(Groups, 0, c));
  }

  /** The position of the terminating 1 in itokcl. */
  const STOP: nat := 48

  lemma ItokClShape()
    ensures |ItokCl| == STOP + 1 && ItokCl[STOP] == 1
    ensures CodesInRange(ItokCl)
    ensures 1 !in ItokCl[..STOP]
    ensures ItokCl[..STOP] == Join(Groups, 12)
  {
    ItokClIsJoin();
    GroupsOk();
    JoinRange(Groups, 12);
  }

  /** The table InitExpression builds from itokcl. */
  function StdTable(): (t: seq<int>)
    ensures |t| == 256
  {
    ItokClShape();
    TableAfter(ItokCl, STOP)
  }

  /** The table InitExpression builds gives every code the class listed for
      it: codes absent from itokcl are END, each listed code gets the
      number of its group. */
  lemma {:induction false} StdTableIsClass(c: int)
    requires 0 <= c < 256
    ensures StdTable()[c] == Class(c)
  {
    ItokClShape();
    GroupsOk();
    TablePrefix(ItokCl[..STOP], [1], STOP);
    assert ItokCl[..STOP] + [1] == ItokCl;
    JoinRange(Groups, 12);
    JoinTable(Groups, 12, c);
    GroupClassIsClass(c);
  }

  lemma IdGroupClass(c: int)
    requires c in IdGroup
    ensures Class(c) == ID
  {
  }

  lemma OparGroupClass(c: int)
    requires c in OparGroup
    ensures Class(c) == OPAR
  {
  }

  lemma CparGroupClass(c: int)
    requires c in CparGroup
    ensures Class(c) == CPAR
  {
  }

  lemma SunaryGroupClass(c: int)
    requires c in SunaryGroup
    ensures Class(c) == SUNARY
  {
  }

  lemma UnaryGroupClass(c: int)
    requires c in UnaryGroup
    ensures Class(c) == UNARY
  {
  }

  lemma MultGroupClass(c: int)
    requires c in MultGroup
    ensures Class(c) == MULT
  {
  }

  lemma AddGroupClass(c: int)
    requires c in AddGroup
    ensures Class(c) == ADD
  {
  }

  lemma ShiftGroupClass(c: int)
    requires c in ShiftGroup
    ensures Class(c) == SHIFT
  {
  }

  lemma RelGroupClass(c: int)
    requires c in RelGroup
    ensures Class(c) == REL
  {
  }

  lemma AndGroupClass(c: int)
    requires c in AndGroup
    ensures Class(c) == AND
  {
  }

  lemma XorGroupClass(c: int)
    requires c in XorGroup
    ensures Class(c) == XOR
  {
  }

  lemma OrGroupClass(c: int)
    requires c in OrGroup
    ensures Class(c) == OR
  {
  }

  /** Each member of group i (0-based) gets class i + 1, the number of 0
      separators that precede the group in itokcl. */
  lemma {:induction false} GroupMembersClass(i: nat, c: int)
    requires i < |Groups| && c in Groups[i]
    ensures 0 <= c < 256
    ensures StdTable()[c] == i + 1
    ensures Zeros(Join(Groups, i)) == i + 1
  {
    GroupsOk();
    JoinZeros(Groups, i);
    assert Class(c) == i + 1 by {
      if i == 0 {
        IdGroupClass(c);
      } else if i == 1 {
        OparGroupClass(c);
      } else if i == 2 {
        CparGroupClass(c);
      } else if i == 3 {
        SunaryGroupClass(c);
      } else if i == 4 {
        UnaryGroupClass(c);
      } else if i == 5 {
        MultGroupClass(c);
      } else if i == 6 {
        AddGroupClass(c);
      } else if i == 7 {
        ShiftGroupClass(c);
      } else if i == 8 {
        RelGroupClass(c);
      } else if i == 9 {
        AndGroupClass(c);
      } else if i == 10 {
        XorGroupClass(c);
      } else {
        OrGroupClass(c);
      }
    }
    StdTableIsClass(c);
  }

  /** Codes that are not in itokcl have class END. */
  lemma {:induction false} UnlistedIsEnd(c: int)
    requires 0 <= c < 256 && c !in ItokCl
    ensures StdTable()[c] == END
  {
    ItokClShape();
    AbsentIsEnd(ItokCl, STOP, c);
  }
}
