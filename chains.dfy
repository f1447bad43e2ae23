/** tpx_make_chain_identifiers: every molecule gets a chain number, and
    molecules of at least CHAIN_MIN_ATOMS atoms get the letters 'A' to 'Z'
    in order while they last.  The numbers and letters are written into the
    residue records of the molecule's atoms; when only one molecule got a
    letter, every residue's letter is blanked again. */
module Chains {
  const CHAIN_MIN_ATOMS: int := 15
  /** The number of letters 'A'..'Z'. */
  const LETTERS: nat := 26

  /** t_resinfo: chainnum and chainid are written here; name, nr and ic
      stand for the fields left alone. */
  datatype ResInfo = ResInfo(name: string, nr: int, ic: char, chainnum: int, chainid: char)

  /** A record that differs from `before` at most in chainnum and chainid. */
  predicate SameResidue(after: ResInfo, before: ResInfo)
  {
    after.name == before.name && after.nr == before.nr && after.ic == before.ic
  }

  /** What the loops index with: mols->index has nr + 1 entries, each a
      valid atom index, and each atom's resind names a residue. */
  predicate Indexed(index: seq<int>, resind: seq<nat>, nres: nat)
  {
    && |index| >= 1
    && (forall i :: 0 <= i < |index| ==> 0 <= index[i] <= |resind|)
    && (forall a :: 0 <= a < |resind| ==> resind[a] < nres)
  }

  /** Molecule m is large enough to get a letter. */
  predicate Big(index: seq<int>, m: nat)
    requires m + 1 < |index|
  {
    index[m + 1] - index[m] >= CHAIN_MIN_ATOMS
  }

  /** How many of molecules 0..m-1 got a letter: the distance of chainid
      from 'A' when molecule m is reached. */
  function Lettered(index: seq<int>, m: nat): (r: nat)
    requires m < |index|
    ensures r <= LETTERS && r <= m
  {
    if m == 0 then 0
    else Lettered(index, m - 1) + (if Big(index, m - 1) && Lettered(index, m - 1) < LETTERS then 1 else 0)
  }

  /** The chain id molecule m gets in the numbering loop. */
  function ChainId(index: seq<int>, m: nat): char
    requires m + 1 < |index|
  {
    if Big(index, m) && Lettered(index, m) < LETTERS then ('A' as int + Lettered(index, m)) as char else ' '
  }

  /** residue r is the residue of one of the atoms of molecule m. */
  predicate Touches(index: seq<int>, resind: seq<nat>, m: nat, r: nat)
    requires m + 1 < |index|
  {
    exists a :: index[m] <= a < index[m + 1] && 0 <= a < |resind| && resind[a] == r
  }

  /** The residue records after the inner loop has run over atoms a0..a-1
      for a molecule with number `num` and id `id`. */
  function WriteAtoms(res: seq<ResInfo>, resind: seq<nat>, a0: int, a: int, num: int, id: char): (r: seq<ResInfo>)
    requires 0 <= a0 && a <= |resind| && forall i :: 0 <= i < |resind| ==> resind[i] < |res|
    ensures |r| == |res|
    decreases a - a0
  {
    if a <= a0 then res
    else
      var prev := WriteAtoms(res, resind, a0, a - 1, num, id);
      prev[resind[a - 1] := prev[resind[a - 1]].(chainnum := num, chainid := id)]
  }

  /** The residue records after the numbering loop has run over molecules
      0..m-1. */
  function Labelled(res: seq<ResInfo>, index: seq<int>, resind: seq<nat>, m: nat): (r: seq<ResInfo>)
    requires Indexed(index, resind, |res|) && m < |index|
    ensures |r| == |res|
  {
    if m == 0 then res
    else WriteAtoms(Labelled(res, index, resind, m - 1), resind, index[m - 1], index[m], m - 1, ChainId(index, m - 1))
  }

  /** Every chain id blanked. */
  function Blanked(res: seq<ResInfo>): (r: seq<ResInfo>)
    ensures |r| == |res|
  {
    seq(|res|, i requires 0 <= i < |res| => res[i].(chainid := ' '))
  }

  /** The residue records tpx_make_chain_identifiers leaves behind. */
  function ChainIdentifiers(res: seq<ResInfo>, index: seq<int>, resind: seq<nat>): (r: seq<ResInfo>)
    requires Indexed(index, resind, |res|)
    ensures |r| == |res|
  {
    var l := Labelled(res, index, resind, |index| - 1);
    if Lettered(index, |index| - 1) == 1 then Blanked(l) else l
  }

  /** tpx_make_chain_identifiers(atoms, mols), with atoms->resinfo as an
      array of nres records, atom[].resind and mols->index as read-only
      sequences. */
  method MakeChainIdentifiers(resinfo: array<ResInfo>, resind: seq<nat>, index: seq<int>)
    requires Indexed(index, resind, resinfo.Length)
    modifies resinfo
    ensures resinfo[..] == ChainIdentifiers(old(resinfo[..]), index, resind)
  {
    ghost var res := resinfo[..];
    var chainnum := 0;
    var chainid := 'A';
    var m := 0;
    while m < |index| - 1
      invariant 0 <= m <= |index| - 1
      invariant chainnum == m
      invariant chainid as int == 'A' as int + Lettered(index, m)
      invariant resinfo[..] == Labelled(res, index, resind, m)
    {
      var a0, a1 := index[m], index[m + 1];
      var c;
      if a1 - a0 >= CHAIN_MIN_ATOMS && chainid <= 'Z' {
        c := chainid;
        chainid := (chainid as int + 1) as char;
      } else {
        c := ' ';
      }
      assert c == ChainId(index, m);
      LabelAtoms(resinfo, resind, a0, a1, chainnum, c);
      chainnum := chainnum + 1;
      m := m + 1;
    }
    if chainid == 'B' {
      BlankAll(resinfo);
    }
  }

  /** The inner loop: atoms a0..a1-1 label their residues. */
  method LabelAtoms(resinfo: array<ResInfo>, resind: seq<nat>, a0: int, a1: int, num: int, c: char)
    requires 0 <= a0 <= |resind| && a1 <= |resind| && forall i :: 0 <= i < |resind| ==> resind[i] < resinfo.Length
    modifies resinfo
    ensures resinfo[..] == WriteAtoms(old(resinfo[..]), resind, a0, a1, num, c)
  {
    ghost var before := resinfo[..];
    var a := a0;
    while a < a1
      invariant a == a0 || a0 <= a <= a1
      invariant resinfo[..] == WriteAtoms(before, resind, a0, a, num, c)
    {
      var r := resind[a];
      resinfo[r] := resinfo[r].(chainnum := num, chainid := c);
      a := a + 1;
    }
    if a1 < a0 {
      assert WriteAtoms(before, resind, a0, a1, num, c) == before;
    }
  }

  /** The blanking loop over every residue. */
  method BlankAll(resinfo: array<ResInfo>)
    modifies resinfo
    ensures resinfo[..] == Blanked(old(resinfo[..]))
  {
    ghost var l := resinfo[..];
    var r := 0;
    while r < resinfo.Length
      invariant 0 <= r <= resinfo.Length
      invariant forall i :: 0 <= i < r ==> resinfo[i] == l[i].(chainid := ' ')
      invariant forall i :: r <= i < resinfo.Length ==> resinfo[i] == l[i]
    {
      resinfo[r] := resinfo[r].(chainid := ' ');
      r := r + 1;
    }
    assert resinfo[..] == Blanked(l);
  }

  /** A chain id is a blank or one of 'A'..'Z', and a molecule gets a
      letter exactly when it is large and letters remain. */
  lemma ChainIdRange(index: seq<int>, m: nat)
    requires m + 1 < |index|
    ensures ChainId(index, m) == ' ' || 'A' <= ChainId(index, m) <= 'Z'
    ensures ChainId(index, m) != ' ' <==> Big(index, m) && Lettered(index, m) < LETTERS
  {
  }

  /** Once molecule m has a letter, every later molecule has seen more
      letters handed out. */
  lemma {:induction false} LetteredGrows(index: seq<int>, m: nat, n: nat)
    requires m < n < |index| && Big(index, m) && Lettered(index, m) < LETTERS
    ensures Lettered(index, n) > Lettered(index, m)
  {
    if n > m + 1 {
      LetteredGrows(index, m, n - 1);
    }
  }

  /** Letters go out in order: two lettered molecules never share one, and
      the earlier one has the earlier letter. */
  lemma LettersDistinct(index: seq<int>, m: nat, n: nat)
    requires m < n && n + 1 < |index|
    requires ChainId(index, m) != ' ' && ChainId(index, n) != ' '
    ensures ChainId(index, m) < ChainId(index, n)
  {
    LetteredGrows(index, m, n);
  }

  /** The inner loop writes exactly the residues of the molecule's atoms,
      and only their chain fields. */
  lemma {:induction false} WriteAtomsAt(res: seq<ResInfo>, resind: seq<nat>, a0: int, a: int, num: int, id: char, r: nat)
    requires 0 <= a0 && a <= |resind| && forall i :: 0 <= i < |resind| ==> resind[i] < |res|
    requires r < |res|
    ensures (exists i :: a0 <= i < a && resind[i] == r) ==>
              WriteAtoms(res, resind, a0, a, num, id)[r] == res[r].(chainnum := num, chainid := id)
    ensures (forall i :: a0 <= i < a ==> resind[i] != r) ==> WriteAtoms(res, resind, a0, a, num, id)[r] == res[r]
    decreases a - a0
  {
    if a > a0 {
      WriteAtomsAt(res, resind, a0, a - 1, num, id, r);
      if resind[a - 1] != r && exists i :: a0 <= i < a && resind[i] == r {
        var i :| a0 <= i < a && resind[i] == r;
        assert i < a - 1;
      }
    }
  }

  /** Molecules that do not touch residue r leave its record alone. */
  lemma {:induction false} LabelledUntouched(res: seq<ResInfo>, index: seq<int>, resind: seq<nat>, k: nat, n: nat, r: nat)
    requires Indexed(index, resind, |res|) && k <= n < |index| && r < |res|
    requires forall m :: k <= m < n ==> !Touches(index, resind, m, r)
    ensures Labelled(res, index, resind, n)[r] == Labelled(res, index, resind, k)[r]
    decreases n
  {
    if n > k {
      LabelledUntouched(res, index, resind, k, n - 1, r);
      var m := n - 1;
      assert !Touches(index, resind, m, r);
      WriteAtomsAt(Labelled(res, index, resind, m), resind, index[m], index[n], m, ChainId(index, m), r);
    }
  }

  /** The loops change nothing but the chain fields. */
  lemma {:induction false} LabelledKeeps(res: seq<ResInfo>, index: seq<int>, resind: seq<nat>, n: nat, r: nat)
    requires Indexed(index, resind, |res|) && n < |index| && r < |res|
    ensures SameResidue(Labelled(res, index, resind, n)[r], res[r])
  {
    if n > 0 {
      LabelledKeeps(res, index, resind, n - 1, r);
      var m := n - 1;
      WriteAtomsAt(Labelled(res, index, resind, m), resind, index[m], index[n], m, ChainId(index, m), r);
    }
  }

  /** Every atom's residue carries the chain number and id of the last
      molecule holding one of its atoms. */
  lemma {:induction false} LastMoleculeWins(res: seq<ResInfo>, index: seq<int>, resind: seq<nat>, m: nat, a: nat)
    requires Indexed(index, resind, |res|) && m + 1 < |index|
    requires index[m] <= a < index[m + 1]
    requires forall k :: m < k < |index| - 1 ==> !Touches(index, resind, k, resind[a])
    ensures Labelled(res, index, resind, |index| - 1)[resind[a]].chainnum == m
    ensures Labelled(res, index, resind, |index| - 1)[resind[a]].chainid == ChainId(index, m)
  {
    var r := resind[a];
    var l := Labelled(res, index, resind, m);
    var id := ChainId(index, m);
    assert Labelled(res, index, resind, m + 1) == WriteAtoms(l, resind, index[m], index[m + 1], m, id);
    assert index[m] <= a < index[m + 1] && resind[a] == r;
    WriteAtomsAt(l, resind, index[m], index[m + 1], m, id, r);
    assert Labelled(res, index, resind, m + 1)[r] == l[r].(chainnum := m, chainid := id);
    LabelledUntouched(res, index, resind, m + 1, |index| - 1, r);
  }

  /** No letter was handed out before molecule n exactly when all of
      molecules 0..n-1 got a blank. */
  lemma {:induction false} NoneLettered(index: seq<int>, n: nat)
    requires n < |index|
    ensures Lettered(index, n) == 0 <==> forall k :: 0 <= k < n ==> ChainId(index, k) == ' '
  {
    if n > 0 {
      NoneLettered(index, n - 1);
      ChainIdRange(index, n - 1);
    }
  }

  /** The count of letters is one exactly when a single molecule got a
      letter: the case in which the final loop blanks every chain id. */
  lemma {:induction false} OneLettered(index: seq<int>, n: nat)
    requires n < |index|
    ensures Lettered(index, n) == 1 <==>
            exists m :: 0 <= m < n && ChainId(index, m) != ' ' && forall k :: 0 <= k < n && k != m ==> ChainId(index, k) == ' '
  {
    if n > 0 {
      OneLettered(index, n - 1);
      NoneLettered(index, n - 1);
      if Lettered(index, n) == 1 {
        if ChainId(index, n - 1) != ' ' {
          assert forall k :: 0 <= k < n && k != n - 1 ==> ChainId(index, k) == ' ';
        } else {
          var m :| 0 <= m < n - 1 && ChainId(index, m) != ' ' && forall k :: 0 <= k < n - 1 && k != m ==> ChainId(index, k) == ' ';
          assert forall k :: 0 <= k < n && k != m ==> ChainId(index, k) == ' ';
        }
      }
      if exists m :: 0 <= m < n && ChainId(index, m) != ' ' && forall k :: 0 <= k < n && k != m ==> ChainId(index, k) == ' ' {
        var m :| 0 <= m < n && ChainId(index, m) != ' ' && forall k :: 0 <= k < n && k != m ==> ChainId(index, k) == ' ';
        if m == n - 1 {
          assert forall k :: 0 <= k < n - 1 ==> ChainId(index, k) == ' ';
        } else {
          assert ChainId(index, n - 1) == ' ';
          assert forall k :: 0 <= k < n - 1 && k != m ==> ChainId(index, k) == ' ';
        }
      }
    }
  }

  /** What tpx_make_chain_identifiers leaves in a residue of an atom of
      molecule m when no later molecule shares it: chain number m, and the
      molecule's id unless only one molecule got a letter. */
  lemma ChainIdentifiersAt(res: seq<ResInfo>, index: seq<int>, resind: seq<nat>, m: nat, a: nat)
    requires Indexed(index, resind, |res|) && m + 1 < |index|
    requires index[m] <= a < index[m + 1]
    requires forall k :: m < k < |index| - 1 ==> !Touches(index, resind, k, resind[a])
    ensures ChainIdentifiers(res, index, resind)[resind[a]].chainnum == m
    ensures ChainIdentifiers(res, index, resind)[resind[a]].chainid
            == if Lettered(index, |index| - 1) == 1 then ' ' else ChainId(index, m)
  {
    LastMoleculeWins(res, index, resind, m, a);
  }

  /** A residue no molecule touches keeps its chain number, and its whole
      record unless the chain ids are blanked. */
  lemma ChainIdentifiersUntouched(res: seq<ResInfo>, index: seq<int>, resind: seq<nat>, r: nat)
    requires Indexed(index, resind, |res|) && r < |res|
    requires forall m :: 0 <= m < |index| - 1 ==> !Touches(index, resind, m, r)
    ensures ChainIdentifiers(res, index, resind)[r].chainnum == res[r].chainnum
    ensures Lettered(index, |index| - 1) != 1 ==> ChainIdentifiers(res, index, resind)[r] == res[r]
  {
    LabelledUntouched(res, index, resind, 0, |index| - 1, r);
  }

  /** Every residue keeps all but its chain fields, and with a single
      lettered molecule no residue keeps a letter. */
  lemma ChainIdentifiersKeep(res: seq<ResInfo>, index: seq<int>, resind: seq<nat>, r: nat)
    requires Indexed(index, resind, |res|) && r < |res|
    ensures SameResidue(ChainIdentifiers(res, index, resind)[r], res[r])
    ensures Lettered(index, |index| - 1) == 1 ==> ChainIdentifiers(res, index, resind)[r].chainid == ' '
  {
    var l := Labelled(res, index, resind, |index| - 1);
    LabelledKeeps(res, index, resind, |index| - 1, r);
    if Lettered(index, |index| - 1) == 1 {
      assert ChainIdentifiers(res, index, resind)[r] == l[r].(chainid := ' ');
    } else {
      assert ChainIdentifiers(res, index, resind)[r] == l[r];
    }
  }
}
