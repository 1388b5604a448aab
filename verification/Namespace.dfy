/** The small abstract namespace that stands for LittleFS: exact paths, regular files, directories. */
module Namespace {
  datatype Kind = Reg | Dir

  type Tree = map<string, Kind>

  /** p lies strictly below directory d. */
  predicate Under(p: string, d: string) {
    d + "/" <= p
  }

  predicate Empty(t: Tree, d: string) {
    forall p :: p in t ==> !Under(p, d)
  }

  lemma UnderTransitive(p: string, d: string, e: string)
    requires Under(p, d) && Under(d, e)
    ensures Under(p, e)
  {
    assert p[..|d| + 1] == d + "/" && d[..|e| + 1] == e + "/";
    assert p[..|e| + 1] == e + "/";
  }

  // ----- renaming moves a whole subtree

  predicate Moves(p: string, src: string) {
    p == src || Under(p, src)
  }

  /** Whether lfs_rename accepts the move: src exists, dst is free or replaceable and not below src. */
  predicate CanRename(t: Tree, src: string, dst: string) {
    && src in t
    && !Under(dst, src)
    && (dst in t ==> t[dst] == t[src])
    && (src == dst || Empty(t, dst))
  }

  function Renamed(t: Tree, src: string, dst: string): Tree
    requires CanRename(t, src, dst)
  {
    if src == dst then t
    else
      var moved := set p | p in t && Moves(p, src) :: dst + p[|src|..];
      (map p | p in t && !Moves(p, src) && p != dst :: t[p])
      + (map q | q in moved && src + q[|dst|..] in t :: t[src + q[|dst|..]])
  }

  lemma RenamedAt(t: Tree, src: string, dst: string, p: string)
    requires CanRename(t, src, dst) && src != dst && p != dst
    ensures !Under(p, dst) ==> (p in Renamed(t, src, dst) <==> p in t && !Moves(p, src))
    ensures !Under(p, dst) && p in Renamed(t, src, dst) ==> Renamed(t, src, dst)[p] == t[p]
    ensures p in t && !Moves(p, src) ==> p in Renamed(t, src, dst) && Renamed(t, src, dst)[p] == t[p]
  {
    forall q | q in t && Moves(q, src)
      ensures dst + q[|src|..] == dst || Under(dst + q[|src|..], dst)
    {
      if Under(q, src) {
        assert q[|src|..][0] == q[|src|] == (src + "/")[|src|];
        assert dst + "/" <= dst + q[|src|..];
      }
    }
  }

  /** Renaming keeps a path that is neither moved nor replaced; a path below src is gone. */
  lemma RenameKeepsPath(t: Tree, src: string, dst: string, p: string)
    requires CanRename(t, src, dst) && src != dst
    requires p in t && p != src && p != dst
    ensures p in Renamed(t, src, dst) <==> !Under(p, src)
    ensures p in Renamed(t, src, dst) ==> Renamed(t, src, dst)[p] == t[p]
  {
    RenamedAt(t, src, dst, p);
    assert Empty(t, dst);
  }

  /** The path where a rename puts p, which is src or below it. */
  function Landing(p: string, src: string, dst: string): string
    requires Moves(p, src)
  {
    dst + p[|src|..]
  }

  lemma LandingBack(p: string, src: string, dst: string)
    requires Moves(p, src)
    ensures Moves(Landing(p, src, dst), dst)
    ensures Landing(Landing(p, src, dst), dst, src) == p
  {
    var q := Landing(p, src, dst);
    assert q[|dst|..] == p[|src|..];
    if Under(p, src) {
      assert p[|src|..][0] == p[|src|] == (src + "/")[|src|];
      assert p == src + p[|src|..];
    }
  }

  /** After a rename dst is what src was, everything below src is at the same suffix below dst, everything
      else but the old dst is where it was, and there is nothing more. */
  lemma RenamedExactly(t: Tree, src: string, dst: string, q: string)
    requires CanRename(t, src, dst) && src != dst
    ensures var r := Renamed(t, src, dst);
      && dst in r && r[dst] == t[src]
      && (q in t && Moves(q, src) ==> Landing(q, src, dst) in r && r[Landing(q, src, dst)] == t[q])
      && (q in t && !Moves(q, src) && q != dst ==> q in r && r[q] == t[q])
      && (q in r ==> (q in t && !Moves(q, src) && q != dst) || (Moves(q, dst) && Landing(q, dst, src) in t))
  {
    var r := Renamed(t, src, dst);
    LandingBack(src, src, dst);
    assert Landing(src, src, dst) == dst;
    if q in t && Moves(q, src) {
      LandingBack(q, src, dst);
      var l := Landing(q, src, dst);
      assert src + l[|dst|..] == q;
    }
    if q in t && !Moves(q, src) && q != dst {
      RenamedAt(t, src, dst, q);
    }
    if q in r && !(q in t && !Moves(q, src) && q != dst) {
      var p :| p in t && Moves(p, src) && q == dst + p[|src|..];
      LandingBack(p, src, dst);
    }
  }

  /** A rename to a free name succeeds in the namespace and is undone by renaming back. */
  lemma RenameRoundTrip(t: Tree, src: string, dst: string)
    requires src in t && dst !in t && Empty(t, dst) && !Under(dst, src)
    ensures CanRename(t, src, dst)
    ensures CanRename(Renamed(t, src, dst), dst, src)
    ensures Renamed(Renamed(t, src, dst), dst, src) == t
  {
    var r := Renamed(t, src, dst);
    RenamedExactly(t, src, dst, src);
    forall q | q in r
      ensures !Moves(q, src)
    {
      RenamedExactly(t, src, dst, q);
      if Moves(q, dst) && Moves(q, src) {
        OneAbove(q, src, dst);
      }
    }
    var b := Renamed(r, dst, src);
    forall q
      ensures q in b <==> q in t
      ensures q in t ==> b[q] == t[q]
    {
      RenamedExactly(t, src, dst, q);
      RenamedExactly(r, dst, src, q);
      if Moves(q, src) {
        LandingBack(q, src, dst);
        RenamedExactly(t, src, dst, Landing(q, src, dst));
        RenamedExactly(r, dst, src, Landing(q, src, dst));
      }
    }
  }

  /** Two different paths to which one path belongs lie one below the other. */
  lemma OneAbove(q: string, d: string, e: string)
    requires Moves(q, d) && Moves(q, e) && d != e
    ensures Under(d, e) || Under(e, d)
  {
    assert d == q[..|d|] && e == q[..|e|];
    if |d| < |e| {
      assert e[..|d| + 1] == q[..|d| + 1] == d + "/";
    } else if |e| < |d| {
      assert d[..|e| + 1] == q[..|e| + 1] == e + "/";
    }
  }
}
