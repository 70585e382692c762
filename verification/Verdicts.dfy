/**
 Three-valued logic: verdicts where yes and no are joined by unknown, and the two folds that turn
 a watch's list of them into one.
 */
module Verdicts {

  datatype Truth = False | True | Unknown

  /** `Unrecognised` stands for a stored combinator that is neither word; validation refuses it. */
  datatype Combinator = All | Any | Unrecognised

  datatype NoDataPolicy = NoDataOK | NoDataFire | NoDataKeep
  {
    function Truth(): Truth {
      match this
      case NoDataFire => True
      case NoDataKeep => Unknown
      case NoDataOK => False
    }
  }

  function TruthOf(b: bool): Truth {
    if b then True else False
  }

  /** The verdict a settled list has: the combinator's deciding verdict, then Unknown, then the rest. */
  function Combined(c: Combinator, verdicts: seq<Truth>): Truth {
    if |verdicts| == 0 then Unknown
    else if c == All && False in verdicts then False
    else if c == Any && True in verdicts then True
    else if Unknown in verdicts then Unknown
    else TruthOf(c == All)
  }

  /** The fold as it runs: an early return on a deciding verdict, and a flag for the undecided. */
  method Combine(c: Combinator, verdicts: seq<Truth>) returns (t: Truth)
    ensures t == Combined(c, verdicts)
  {
    if |verdicts| == 0 {
      return Unknown;
    }
    var unknown := false;
    for i := 0 to |verdicts|
      invariant c == All ==> False !in verdicts[..i]
      invariant c == Any ==> True !in verdicts[..i]
      invariant unknown <==> Unknown in verdicts[..i]
    {
      var v := verdicts[i];
      if c == All && v == False {
        return False;
      } else if c == Any && v == True {
        return True;
      } else if v == Unknown {
        unknown := true;
      }
    }
    assert verdicts[..|verdicts|] == verdicts;
    if unknown {
      return Unknown;
    }
    if c == All {
      return True;
    }
    return False;
  }

  /** bs answers every Unknown of vs with a boolean and leaves the decided verdicts alone. */
  ghost predicate Completes(bs: seq<bool>, vs: seq<Truth>) {
    && |bs| == |vs|
    && forall i :: 0 <= i < |vs| && vs[i] != Unknown ==> (bs[i] <==> vs[i] == True)
  }

  /** The ordinary two-valued reading of all/any. */
  ghost predicate Ordinary(c: Combinator, bs: seq<bool>)
    requires c != Unrecognised
  {
    if c == All then forall i :: 0 <= i < |bs| ==> bs[i] else exists i :: 0 <= i < |bs| && bs[i]
  }

  function Answered(vs: seq<Truth>, guess: bool): (bs: seq<bool>)
    ensures Completes(bs, vs)
    ensures forall i :: 0 <= i < |vs| && vs[i] == Unknown ==> bs[i] == guess
  {
    seq(|vs|, i requires 0 <= i < |vs| => if vs[i] == Unknown then guess else vs[i] == True)
  }

  /**
   A combined verdict is decided exactly when no way of answering the Unknowns could change the
   two-valued answer: Kleene's reading is the strongest sound one.
   */
  lemma CombinedIsSupervaluation(c: Combinator, vs: seq<Truth>)
    requires vs != [] && c != Unrecognised
    ensures Combined(c, vs) == True <==> forall bs | Completes(bs, vs) :: Ordinary(c, bs)
    ensures Combined(c, vs) == False <==> forall bs | Completes(bs, vs) :: !Ordinary(c, bs)
  {
    var no, yes := Answered(vs, false), Answered(vs, true);
    assert Completes(no, vs) && Completes(yes, vs);
    if c == All {
      if i :| 0 <= i < |vs| && vs[i] == Unknown { assert !no[i]; }
      if i :| 0 <= i < |vs| && vs[i] == False {
        forall bs | Completes(bs, vs) ensures !Ordinary(c, bs) { assert !bs[i]; }
      } else {
        assert Ordinary(c, yes);
      }
    } else {
      if i :| 0 <= i < |vs| && vs[i] == Unknown { assert yes[i]; }
      if i :| 0 <= i < |vs| && vs[i] == True {
        forall bs | Completes(bs, vs) ensures Ordinary(c, bs) { assert bs[i]; }
      } else {
        assert !Ordinary(c, no);
      }
    }
  }

  /** ws knows at least what vs knows. */
  ghost predicate Refines(ws: seq<Truth>, vs: seq<Truth>) {
    |ws| == |vs| && forall i :: 0 <= i < |vs| && vs[i] != Unknown ==> ws[i] == vs[i]
  }

  /** Learning what an Unknown was never flips a verdict that had already been reached. */
  lemma ResolvingNeverFlips(c: Combinator, vs: seq<Truth>, ws: seq<Truth>)
    requires c != Unrecognised && Refines(ws, vs) && Combined(c, vs) != Unknown
    ensures Combined(c, ws) == Combined(c, vs)
  {
    CombinedIsSupervaluation(c, vs);
    CombinedIsSupervaluation(c, ws);
    forall bs | Completes(bs, ws) ensures Completes(bs, vs) {}
  }

  /** The order conditions were written in does not matter. */
  lemma CombinedIgnoresOrder(c: Combinator, vs: seq<Truth>, ws: seq<Truth>)
    requires multiset(vs) == multiset(ws)
    ensures Combined(c, vs) == Combined(c, ws)
  {
    forall t: Truth ensures t in vs <==> t in ws {
      assert t in vs <==> t in multiset(vs);
      assert t in ws <==> t in multiset(ws);
    }
    assert |vs| == |multiset(vs)| == |multiset(ws)| == |ws|;
  }
}
