/** OUsearch and Create of PS/adduser.ps1 and AD/functionCreateOU.ps1: make sure the organizational
    unit of a distinguished name exists, creating the missing ones on the way down.

    A distinguished name is the list of its components, innermost first, as split(",") gives it.
    The directory compares without regard to case; `fold` is whatever folding it uses, and the
    directory is the set of its folded names.  New-ADOrganizationalUnit makes the unit OU=name
    under its path, or fails, without stopping the script, when the name is empty, the path does
    not exist, or the unit does. */
module OuBuilder {
  import opened OuNames

  // ------------------------------------------------------------ what Create does

  datatype Config = Config(fold: char -> char, blanks: bool)

  /** New-ADOrganizationalUnit */
  function New(c: Config, dir: set<Dn>, name: string, path: Dn): set<Dn> {
    if name != "" && FoldDn(c.fold, path) in dir then dir + {FoldDn(c.fold, ["OU=" + name] + path)} else dir
  }

  predicate Present(c: Config, dir: set<Dn>, dn: Dn) {
    FoldDn(c.fold, dn) in dir
  }

  /** The script takes the last three components for the base without looking. */
  function Depth(path: seq<string>): nat {
    if |path| >= 3 then |path| - 3 else 0
  }

  /** The unit on level `i`: the components from `i` on, under the base. */
  function Target(path: seq<string>, i: nat): (t: Dn)
    requires i <= Depth(path)
    ensures |t| == Depth(path) - i + 3
    ensures i < Depth(path) ==> t == [path[i]] + Target(path, i + 1)
    decreases Depth(path) - i
  {
    var t := path[i..Depth(path)] + BASE;
    assert i < Depth(path) ==> path[i..Depth(path)] == [path[i]] + path[i + 1..Depth(path)];
    t
  }

  function Level(c: Config, dir: set<Dn>, path: seq<string>, i: nat): set<Dn>
    requires i < Depth(path)
  {
    if Present(c, dir, Target(path, i)) then dir
    else New(c, dir, Text(path[i], c.blanks), Target(path, i + 1))
  }

  /** The directory after the levels down to `i`. */
  function Built(c: Config, dir: set<Dn>, path: seq<string>, i: nat): set<Dn>
    requires i <= Depth(path)
    decreases Depth(path) - i
  {
    if i == Depth(path) then dir else Level(c, Built(c, dir, path, i + 1), path, i)
  }

  // ------------------------------------------------------------ the tree

  predicate Under(c: Config, d: Dn) {
    |d| > 3 && d[|d| - 3..] == FoldDn(c.fold, BASE)
  }

  /** The base exists, and every unit under it has its parent. */
  ghost predicate Tree(c: Config, dir: set<Dn>) {
    && FoldDn(c.fold, BASE) in dir
    && forall d :: d in dir && Under(c, d) ==> d[1..] in dir
  }

  lemma FoldDnCons(fold: char -> char, rdn: string, rest: Dn)
    ensures FoldDn(fold, [rdn] + rest) == [Fold(fold, rdn)] + FoldDn(fold, rest)
  {
  }

  /** One component more in front keeps a name under the base. */
  lemma UnderMore(c: Config, rdn: string, above: Dn)
    requires Under(c, above) || above == FoldDn(c.fold, BASE)
    ensures Under(c, [rdn] + above)
  {
    hide FoldDn;
    var t := [rdn] + above;
    assert |FoldDn(c.fold, BASE)| == 3;
    assert t[|t| - 3..] == above[|above| - 3..];
    assert above[0..] == above;
  }

  lemma BaseTarget(path: seq<string>)
    ensures Target(path, Depth(path)) == BASE
  {
    var n := Depth(path);
    assert path[n..n] + BASE == BASE;
  }

  lemma {:induction false} TargetFolded(c: Config, path: seq<string>, i: nat)
    requires i <= Depth(path)
    ensures var t := FoldDn(c.fold, Target(path, i));
            && (i < Depth(path) ==> Under(c, t) && t == [Fold(c.fold, path[i])] + FoldDn(c.fold, Target(path, i + 1)))
            && (i == Depth(path) ==> t == FoldDn(c.fold, BASE))
    decreases Depth(path) - i
  {
    hide Fold, FoldDn, Target, Under;
    if i == Depth(path) {
      BaseTarget(path);
    } else {
      TargetFolded(c, path, i + 1);
      FoldDnCons(c.fold, path[i], Target(path, i + 1));
      UnderMore(c, Fold(c.fold, path[i]), FoldDn(c.fold, Target(path, i + 1)));
    }
  }

  lemma NewKeepsTree(c: Config, dir: set<Dn>, name: string, path: Dn)
    requires Tree(c, dir)
    ensures Tree(c, New(c, dir, name, path))
  {
    var d := FoldDn(c.fold, ["OU=" + name] + path);
    assert d[1..] == FoldDn(c.fold, path);
  }

  /** After every level the directory is still a tree. */
  lemma {:induction false} BuiltIsTree(c: Config, dir: set<Dn>, path: seq<string>, i: nat)
    requires Tree(c, dir) && i <= Depth(path)
    ensures Tree(c, Built(c, dir, path, i)) && dir <= Built(c, dir, path, i)
    decreases Depth(path) - i
  {
    if i < Depth(path) {
      BuiltIsTree(c, dir, path, i + 1);
      NewKeepsTree(c, Built(c, dir, path, i + 1), Text(path[i], c.blanks), Target(path, i + 1));
    }
  }

  // ------------------------------------------------------------ when it works

  /** The unit created for this component is the one that was looked for. */
  predicate Clean(c: Config, rdn: string) {
    Text(rdn, c.blanks) != "" && Fold(c.fold, "OU=" + Text(rdn, c.blanks)) == Fold(c.fold, rdn)
  }

  /** Every unit missing on levels from `i` on has a clean component. */
  ghost predicate MissingClean(c: Config, dir: set<Dn>, path: seq<string>, i: nat)
    requires i <= Depth(path)
  {
    forall j :: i <= j < Depth(path) && !Present(c, dir, Target(path, j)) ==> Clean(c, path[j])
  }

  /** The units that have to exist, from level `i` on. */
  ghost function Chain(c: Config, path: seq<string>, i: nat): (r: set<Dn>)
    requires i <= Depth(path)
    ensures forall j :: i <= j <= Depth(path) ==> FoldDn(c.fold, Target(path, j)) in r
    decreases Depth(path) - i
  {
    {FoldDn(c.fold, Target(path, i))} + if i == Depth(path) then {} else Chain(c, path, i + 1)
  }

  lemma {:induction false} ChainLonger(c: Config, path: seq<string>, i: nat, d: Dn)
    requires i <= Depth(path) && d in Chain(c, path, i)
    ensures |d| <= Depth(path) - i + 3
    decreases Depth(path) - i
  {
    if i < Depth(path) && d != FoldDn(c.fold, Target(path, i)) {
      ChainLonger(c, path, i + 1, d);
    }
  }

  /** The unit of a level is none of those above it. */
  lemma NotAbove(c: Config, path: seq<string>, i: nat)
    requires i < Depth(path)
    ensures FoldDn(c.fold, Target(path, i)) !in Chain(c, path, i + 1)
  {
    var t := FoldDn(c.fold, Target(path, i));
    if t in Chain(c, path, i + 1) {
      ChainLonger(c, path, i + 1, t);
    }
  }

  /** A unit that exists has all its ancestors. */
  lemma {:induction false} Ancestors(c: Config, dir: set<Dn>, path: seq<string>, i: nat, j: nat)
    requires Tree(c, dir) && i <= j <= Depth(path) && Present(c, dir, Target(path, i))
    ensures Present(c, dir, Target(path, j))
    decreases j - i
  {
    if i < j {
      TargetFolded(c, path, i);
      Ancestors(c, dir, path, i + 1, j);
    }
  }

  lemma LevelClean(c: Config, dir: set<Dn>, path: seq<string>, i: nat)
    requires i < Depth(path) && Present(c, dir, Target(path, i + 1)) && Clean(c, path[i])
    ensures Level(c, dir, path, i) == dir + {FoldDn(c.fold, Target(path, i))}
  {
    var made := ["OU=" + Text(path[i], c.blanks)] + Target(path, i + 1);
    assert FoldDn(c.fold, made) == FoldDn(c.fold, Target(path, i));
  }

  lemma LevelUnclean(c: Config, dir: set<Dn>, path: seq<string>, i: nat)
    requires i < Depth(path) && !Present(c, dir, Target(path, i))
    requires !Clean(c, path[i]) || !Present(c, dir, Target(path, i + 1))
    ensures !Present(c, Level(c, dir, path, i), Target(path, i))
  {
    var made := ["OU=" + Text(path[i], c.blanks)] + Target(path, i + 1);
    assert FoldDn(c.fold, made)[0] == Fold(c.fold, made[0]);
    assert FoldDn(c.fold, Target(path, i))[0] == Fold(c.fold, path[i]);
  }

  /** With clean components, exactly the missing units of the chain are made. */
  lemma {:induction false} BuiltClean(c: Config, dir: set<Dn>, path: seq<string>, i: nat)
    requires Tree(c, dir) && i <= Depth(path) && MissingClean(c, dir, path, i)
    ensures Built(c, dir, path, i) == dir + Chain(c, path, i)
    decreases Depth(path) - i
  {
    if i == Depth(path) {
      TargetFolded(c, path, i);
    } else {
      BuiltClean(c, dir, path, i + 1);
      var before := dir + Chain(c, path, i + 1);
      var t := FoldDn(c.fold, Target(path, i));
      if Present(c, dir, Target(path, i)) {
        assert before + {t} == before;
      } else {
        NotAbove(c, path, i);
        hide FoldDn, Target, Text, Fold;
        LevelClean(c, before, path, i);
      }
    }
  }

  lemma {:induction false} BuiltUnclean(c: Config, dir: set<Dn>, path: seq<string>, i: nat)
    requires Tree(c, dir) && i <= Depth(path) && !MissingClean(c, dir, path, i)
    ensures !Present(c, Built(c, dir, path, i), Target(path, i))
    decreases Depth(path) - i
  {
    hide FoldDn, Target, Text, Fold, New, Tree;
    if i < Depth(path) {
      var before := Built(c, dir, path, i + 1);
      BuiltIsTree(c, dir, path, i + 1);
      if MissingClean(c, dir, path, i + 1) {
        BuiltClean(c, dir, path, i + 1);
        NotAbove(c, path, i);
      } else {
        BuiltUnclean(c, dir, path, i + 1);
        if Present(c, before, Target(path, i)) {
          Ancestors(c, before, path, i, i + 1);
        }
      }
      LevelUnclean(c, before, path, i);
    }
  }

  /** Create ends with the unit present if and only if every missing component is clean. */
  lemma PresentIffClean(c: Config, dir: set<Dn>, path: seq<string>)
    requires Tree(c, dir)
    ensures Present(c, Built(c, dir, path, 0), Target(path, 0)) <==> MissingClean(c, dir, path, 0)
  {
    if MissingClean(c, dir, path, 0) {
      BuiltClean(c, dir, path, 0);
    } else {
      BuiltUnclean(c, dir, path, 0);
    }
  }

  lemma {:induction false} NothingMissing(c: Config, dir: set<Dn>, path: seq<string>, i: nat)
    requires Tree(c, dir) && i <= Depth(path) && Present(c, dir, Target(path, i))
    ensures Built(c, dir, path, i) == dir
    decreases Depth(path) - i
  {
    if i < Depth(path) {
      Ancestors(c, dir, path, i, i + 1);
      NothingMissing(c, dir, path, i + 1);
    }
  }

  /** A level done once is done: repeating it changes nothing. */
  lemma LevelTwice(c: Config, dir: set<Dn>, path: seq<string>, i: nat)
    requires i < Depth(path)
    ensures Level(c, Level(c, dir, path, i), path, i) == Level(c, dir, path, i)
  {
  }

  /** The units a level makes are no deeper than its own, so it does not disturb what the outer
      levels see. */
  lemma {:induction false} BuiltAgain(c: Config, dir: set<Dn>, path: seq<string>, i: nat, extra: set<Dn>)
    requires i <= Depth(path)
    requires forall d :: d in extra ==> |d| > Depth(path) - i + 3
    requires Built(c, dir, path, i) == dir
    ensures Built(c, dir + extra, path, i) == dir + extra
    decreases Depth(path) - i
  {
    if i < Depth(path) {
      assert Built(c, dir, path, i + 1) == dir by { BuiltGrows(c, dir, path, i + 1); }
      BuiltAgain(c, dir, path, i + 1, extra);
    }
  }

  lemma {:induction false} BuiltGrows(c: Config, dir: set<Dn>, path: seq<string>, i: nat)
    requires i <= Depth(path)
    ensures dir <= Built(c, dir, path, i)
    decreases Depth(path) - i
  {
    if i < Depth(path) {
      BuiltGrows(c, dir, path, i + 1);
    }
  }

  /** A second call creates nothing, clean or not. */
  lemma {:induction false} SecondCallCreatesNothing(c: Config, dir: set<Dn>, path: seq<string>, i: nat)
    requires i <= Depth(path)
    ensures Built(c, Built(c, dir, path, i), path, i) == Built(c, dir, path, i)
    decreases Depth(path) - i
  {
    if i < Depth(path) {
      SecondCallCreatesNothing(c, dir, path, i + 1);
      var before := Built(c, dir, path, i + 1);
      var after := Level(c, before, path, i);
      BuiltAgain(c, before, path, i + 1, after - before);
      assert before + (after - before) == after;
      LevelTwice(c, before, path, i);
    }
  }

  // ------------------------------------------------------------ the order of creation

  /** The units made on the levels down to `i`, in the order they are made. */
  function Made(c: Config, dir: set<Dn>, path: seq<string>, i: nat): seq<Dn>
    requires i <= Depth(path)
    decreases Depth(path) - i
  {
    if i == Depth(path) then []
    else
      var before := Built(c, dir, path, i + 1);
      Made(c, dir, path, i + 1) +
      if Level(c, before, path, i) == before then [] else [["OU=" + Text(path[i], c.blanks)] + Target(path, i + 1)]
  }

  lemma NoLevels(c: Config, dir: set<Dn>, path: seq<string>)
    ensures var n := Depth(path); Target(path, n) == BASE && Built(c, dir, path, n) == dir && Made(c, dir, path, n) == []
  {
    BaseTarget(path);
  }

  lemma OneLevel(c: Config, dir: set<Dn>, path: seq<string>, i: nat)
    requires i < Depth(path)
    ensures var before := Built(c, dir, path, i + 1);
            && Built(c, dir, path, i) == Level(c, before, path, i)
            && Made(c, dir, path, i) == Made(c, dir, path, i + 1) +
                                        if Level(c, before, path, i) == before then []
                                        else [["OU=" + Text(path[i], c.blanks)] + Target(path, i + 1)]
  {
  }

  /** The missing units, outermost first. */
  function Missing(c: Config, dir: set<Dn>, path: seq<string>, i: nat): seq<Dn>
    requires i <= Depth(path)
    decreases Depth(path) - i
  {
    if i == Depth(path) then []
    else Missing(c, dir, path, i + 1) + if Present(c, dir, Target(path, i)) then [] else [FoldDn(c.fold, Target(path, i))]
  }

  /** With clean components what is made, in order, is what is missing, outermost first. */
  lemma {:induction false} MadeIsMissing(c: Config, dir: set<Dn>, path: seq<string>, i: nat)
    requires Tree(c, dir) && i <= Depth(path) && MissingClean(c, dir, path, i)
    ensures |Made(c, dir, path, i)| == |Missing(c, dir, path, i)|
    ensures forall j :: 0 <= j < |Made(c, dir, path, i)| ==> FoldDn(c.fold, Made(c, dir, path, i)[j]) == Missing(c, dir, path, i)[j]
    decreases Depth(path) - i
  {
    if i < Depth(path) {
      MadeIsMissing(c, dir, path, i + 1);
      BuiltClean(c, dir, path, i + 1);
      var before := dir + Chain(c, path, i + 1);
      var t := FoldDn(c.fold, Target(path, i));
      if !Present(c, dir, Target(path, i)) {
        NotAbove(c, path, i);
        LevelClean(c, before, path, i);
        var made := ["OU=" + Text(path[i], c.blanks)] + Target(path, i + 1);
        assert FoldDn(c.fold, made) == t;
      }
    }
  }

  /** `made` is what `after` has more than `dir`, each unit once and the outer ones, which have fewer
      components, first. */
  ghost predicate Makes(c: Config, dir: set<Dn>, made: seq<Dn>, after: set<Dn>) {
    && dir <= after
    && (forall d :: d in after <==> d in dir || IsMade(c, made, d))
    && (forall a :: 0 <= a < |made| ==> FoldDn(c.fold, made[a]) !in dir)
    && (forall a, b :: 0 <= a < b < |made| ==> |made[a]| < |made[b]|)
  }

  ghost predicate IsMade(c: Config, made: seq<Dn>, d: Dn) {
    exists a :: 0 <= a < |made| && d == FoldDn(c.fold, made[a])
  }

  lemma MakesOneMore(c: Config, dir: set<Dn>, made: seq<Dn>, after: set<Dn>, unit: Dn)
    requires Makes(c, dir, made, after) && FoldDn(c.fold, unit) !in after
    requires forall a :: 0 <= a < |made| ==> |made[a]| < |unit|
    ensures Makes(c, dir, made + [unit], after + {FoldDn(c.fold, unit)})
  {
    hide FoldDn;
    var more, u := made + [unit], FoldDn(c.fold, unit);
    assert more[|made|] == unit;
    forall d ensures IsMade(c, more, d) <==> IsMade(c, made, d) || d == u {
      if IsMade(c, made, d) {
        var a :| 0 <= a < |made| && d == FoldDn(c.fold, made[a]);
        assert more[a] == made[a];
      }
    }
  }

  /** Clean or not, what is made is what the directory has more afterwards. */
  lemma {:induction false} MadeIsNew(c: Config, dir: set<Dn>, path: seq<string>, i: nat)
    requires i <= Depth(path)
    ensures Makes(c, dir, Made(c, dir, path, i), Built(c, dir, path, i))
    ensures forall a :: 0 <= a < |Made(c, dir, path, i)| ==> |Made(c, dir, path, i)[a]| <= Depth(path) - i + 3
    decreases Depth(path) - i
  {
    if i < Depth(path) {
      MadeIsNew(c, dir, path, i + 1);
      OneLevel(c, dir, path, i);
      var before, early := Built(c, dir, path, i + 1), Made(c, dir, path, i + 1);
      var unit := ["OU=" + Text(path[i], c.blanks)] + Target(path, i + 1);
      LevelAdds(c, before, path, i);
      hide Built, Made, Level, Text, Target, FoldDn, Makes, Fold, New, Present;
      if Level(c, before, path, i) != before {
        MakesOneMore(c, dir, early, before, unit);
      } else {
        assert early + [] == early;
      }
    }
  }

  lemma LevelAdds(c: Config, dir: set<Dn>, path: seq<string>, i: nat)
    requires i < Depth(path)
    ensures var unit := ["OU=" + Text(path[i], c.blanks)] + Target(path, i + 1);
            && |unit| == Depth(path) - i + 3
            && (Level(c, dir, path, i) != dir ==>
                  Level(c, dir, path, i) == dir + {FoldDn(c.fold, unit)} && FoldDn(c.fold, unit) !in dir)
  {
    hide Text, FoldDn;
  }

  // ------------------------------------------------------------ which components are clean

  /** A component OU=name is clean if and only if the name is not empty and neither begins nor ends
      with O, U or =, nor, where blanks are trimmed too, with a blank. */
  lemma CleanIff(c: Config, name: string)
    ensures Clean(c, "OU=" + name) <==>
            name != "" && PlainEnds(name, {'O', 'U', '='}) && (c.blanks ==> PlainEnds(name, BLANKS))
  {
    TextIsName(name, c.blanks);
    hide Text, Fold;
    var text := Text("OU=" + name, c.blanks);
    assert |Fold(c.fold, "OU=" + text)| == 3 + |text| && |Fold(c.fold, "OU=" + name)| == 3 + |name|;
  }

  // ------------------------------------------------------------ the whole call

  /** The directory after Create. */
  function Created(c: Config, dir: set<Dn>, path: seq<string>): set<Dn> {
    if Present(c, dir, path) then dir else Built(c, dir, path, 0)
  }

  /** The name ends in the Employees base, as the script takes for granted. */
  predicate UnderBase(c: Config, path: seq<string>) {
    |path| >= 3 && FoldDn(c.fold, path[Depth(path)..]) == FoldDn(c.fold, BASE)
  }

  /** The units that have to exist are those of the endings of the name. */
  lemma EndingIsTarget(c: Config, path: seq<string>, j: nat)
    requires UnderBase(c, path) && j <= Depth(path)
    ensures FoldDn(c.fold, path[j..]) == FoldDn(c.fold, Target(path, j))
  {
    var t := Target(path, j);
    forall i | 0 <= i < |path| - j ensures FoldDn(c.fold, path[j..])[i] == FoldDn(c.fold, t)[i] {
      if i + j >= Depth(path) {
        var k := i + j - Depth(path);
        assert FoldDn(c.fold, path[Depth(path)..])[k] == FoldDn(c.fold, BASE)[k];
        assert path[j..][i] == path[Depth(path)..][k];
        assert t[i] == BASE[k];
      } else {
        assert t[i] == path[j..][i];
      }
    }
  }

  /** The unit of the ending from component `j` on is in the directory. */
  predicate Exists(c: Config, dir: set<Dn>, path: seq<string>, j: nat)
    requires j <= |path|
  {
    FoldDn(c.fold, path[j..]) in dir
  }

  lemma ExistsIsPresent(c: Config, dir: set<Dn>, path: seq<string>)
    requires UnderBase(c, path)
    ensures forall j :: 0 <= j <= Depth(path) ==> (Exists(c, dir, path, j) <==> Present(c, dir, Target(path, j)))
    ensures Present(c, dir, path) <==> Present(c, dir, Target(path, 0))
  {
    forall j | 0 <= j <= Depth(path) ensures Exists(c, dir, path, j) <==> Present(c, dir, Target(path, j)) {
      EndingIsTarget(c, path, j);
    }
    assert path[0..] == path;
    EndingIsTarget(c, path, 0);
  }

  /** Some ending from component `i` on has the folded name `d`. */
  ghost predicate IsEnding(c: Config, path: seq<string>, i: nat, d: Dn) {
    exists j :: i <= j <= Depth(path) && j <= |path| && d == FoldDn(c.fold, path[j..])
  }

  lemma {:induction false} ChainIsEndings(c: Config, path: seq<string>, i: nat, d: Dn)
    requires UnderBase(c, path) && i <= Depth(path)
    ensures d in Chain(c, path, i) <==> IsEnding(c, path, i, d)
    decreases Depth(path) - i
  {
    EndingIsTarget(c, path, i);
    if i < Depth(path) {
      ChainIsEndings(c, path, i + 1, d);
    }
    hide FoldDn, Target;
  }

  /** Each component whose unit is missing is clean. */
  ghost predicate AllClean(c: Config, dir: set<Dn>, path: seq<string>) {
    forall j :: 0 <= j < Depth(path) && !Exists(c, dir, path, j) ==> Clean(c, path[j])
  }

  /** For every name under the base and every directory in which each unit there has its parent:
      Create keeps it so; the unit is present afterwards if and only if every component whose unit
      is missing is clean; if they are, exactly the units of the endings of the name have been
      added; and a second call changes nothing. */
  lemma CreateCorrect(c: Config, dir: set<Dn>, path: seq<string>)
    requires Tree(c, dir) && UnderBase(c, path)
    ensures Tree(c, Created(c, dir, path))
    ensures FoldDn(c.fold, path) in Created(c, dir, path) <==> AllClean(c, dir, path)
    ensures AllClean(c, dir, path) ==> forall d :: d in Created(c, dir, path) <==> d in dir || IsEnding(c, path, 0, d)
    ensures Created(c, Created(c, dir, path), path) == Created(c, dir, path)
  {
    ExistsIsPresent(c, dir, path);
    ExistsIsPresent(c, Created(c, dir, path), path);
    BuiltIsTree(c, dir, path, 0);
    PresentIffClean(c, dir, path);
    SecondCallCreatesNothing(c, dir, path, 0);
    if Present(c, dir, path) {
      NothingMissing(c, dir, path, 0);
    }
    if MissingClean(c, dir, path, 0) {
      BuiltClean(c, dir, path, 0);
      forall d ensures d in Created(c, dir, path) <==> d in dir || IsEnding(c, path, 0, d) {
        ChainIsEndings(c, path, 0, d);
      }
    }
    hide FoldDn, Target, Built, Tree, Clean, Chain, IsEnding;
  }

  /** The outermost missing unit with an unclean component... */
  lemma StuckHere(c: Config, dir: set<Dn>, path: seq<string>, i: nat)
    requires Tree(c, dir) && i < Depth(path) && !Present(c, dir, Target(path, i)) && MissingClean(c, dir, path, i + 1)
    ensures Built(c, dir, path, i) == New(c, dir + Chain(c, path, i + 1), Text(path[i], c.blanks), Target(path, i + 1))
  {
    BuiltClean(c, dir, path, i + 1);
    NotAbove(c, path, i);
    hide FoldDn, Target, Text, Chain;
  }

  /** ...and the ones below it, for which nothing is made. */
  lemma StuckBelow(c: Config, dir: set<Dn>, path: seq<string>, i: nat)
    requires Tree(c, dir) && i < Depth(path) && !MissingClean(c, dir, path, i + 1)
    ensures Built(c, dir, path, i) == Built(c, dir, path, i + 1)
  {
    hide FoldDn, Target, Text, New, Tree;
    var before := Built(c, dir, path, i + 1);
    BuiltIsTree(c, dir, path, i + 1);
    BuiltUnclean(c, dir, path, i + 1);
    hide MissingClean;
    if Present(c, before, Target(path, i)) {
      Ancestors(c, before, path, i, i + 1);
    }
    NewNowhere(c, before, Text(path[i], c.blanks), Target(path, i + 1));
  }

  lemma {:induction false} BuiltStuck(c: Config, dir: set<Dn>, path: seq<string>, i: nat) returns (j: nat)
    requires Tree(c, dir) && i <= Depth(path) && !MissingClean(c, dir, path, i)
    ensures i <= j < Depth(path) && !Present(c, dir, Target(path, j)) && !Clean(c, path[j])
    ensures MissingClean(c, dir, path, j + 1)
    ensures Built(c, dir, path, i) == New(c, dir + Chain(c, path, j + 1), Text(path[j], c.blanks), Target(path, j + 1))
    decreases Depth(path) - i
  {
    hide Present, Target, Text, New, Tree, Clean, Built, Chain;
    if MissingClean(c, dir, path, i + 1) {
      j := i;
      StuckHere(c, dir, path, i);
    } else {
      j := BuiltStuck(c, dir, path, i + 1);
      StuckBelow(c, dir, path, i);
    }
  }

  lemma NewNowhere(c: Config, dir: set<Dn>, name: string, path: Dn)
    requires !Present(c, dir, path)
    ensures New(c, dir, name, path) == dir
  {
  }

  lemma StuckAt(c: Config, dir: set<Dn>, path: seq<string>) returns (j: nat)
    requires Tree(c, dir) && UnderBase(c, path) && !AllClean(c, dir, path)
    ensures j < Depth(path) && !Exists(c, dir, path, j) && !Clean(c, path[j])
    ensures forall m :: j < m < Depth(path) && !Exists(c, dir, path, m) ==> Clean(c, path[m])
    ensures Created(c, dir, path) == New(c, dir + Chain(c, path, j + 1), Text(path[j], c.blanks), Target(path, j + 1))
  {
    ExistsIsPresent(c, dir, path);
    if Present(c, dir, path) {
      PresentIffClean(c, dir, path);
      NothingMissing(c, dir, path, 0);
    }
    j := BuiltStuck(c, dir, path, 0);
    hide FoldDn, Target, Built, Tree, Clean, Text, Chain, New, UnderBase;
  }

  /** And when a component is not clean, this is what happens: outside the outermost missing unit
      whose component is not clean the units of the endings are made; in its place one named by what
      trimming leaves of that component, if anything is left; and below it nothing. */
  lemma CreateStuck(c: Config, dir: set<Dn>, path: seq<string>) returns (j: nat)
    requires Tree(c, dir) && UnderBase(c, path) && !AllClean(c, dir, path)
    ensures j < Depth(path) && !Exists(c, dir, path, j) && !Clean(c, path[j])
    ensures forall m :: j < m < Depth(path) && !Exists(c, dir, path, m) ==> Clean(c, path[m])
    ensures var text := Text(path[j], c.blanks);
            forall d :: d in Created(c, dir, path) <==>
              d in dir || IsEnding(c, path, j + 1, d) || (text != "" && d == FoldDn(c.fold, ["OU=" + text] + path[j + 1..]))
  {
    hide FoldDn, Tree, Clean, Text, Chain, IsEnding, New, Exists, AllClean, UnderBase, Created, Target;
    j := StuckAt(c, dir, path);
    var up := j + 1;
    forall d ensures d in Chain(c, path, up) <==> IsEnding(c, path, up, d) {
      ChainIsEndings(c, path, up, d);
    }
    StuckMakes(c, dir, path, j);
  }

  lemma StuckMakes(c: Config, dir: set<Dn>, path: seq<string>, j: nat)
    requires UnderBase(c, path) && j < Depth(path)
    ensures var text, up := Text(path[j], c.blanks), dir + Chain(c, path, j + 1);
            New(c, up, text, Target(path, j + 1)) == up + if text == "" then {} else {FoldDn(c.fold, ["OU=" + text] + path[j + 1..])}
  {
    EndingIsTarget(c, path, j + 1);
    FoldDnCons(c.fold, "OU=" + Text(path[j], c.blanks), Target(path, j + 1));
    FoldDnCons(c.fold, "OU=" + Text(path[j], c.blanks), path[j + 1..]);
    hide FoldDn, Target, Text;
  }

  // ------------------------------------------------------------ the script

  /** The set of folded names that a listing of units stands for. */
  function Listed(c: Config, units: seq<string>): (r: set<Dn>) {
    set unit | unit in units :: FoldDn(c.fold, Split(unit))
  }

  function SplitAll(names: seq<string>): (r: seq<Dn>)
    ensures |r| == |names|
  {
    seq(|names|, i requires 0 <= i < |names| => Split(names[i]))
  }

  lemma ListedMore(c: Config, units: seq<string>, unit: string)
    ensures Listed(c, units + [unit]) == Listed(c, units) + {FoldDn(c.fold, Split(unit))}
  {
  }

  /** The directory as the scripts see it: what Get-ADOrganizationalUnit lists, in the order the
      units were made. */
  class Directory {
    const config: Config
    var units: seq<string>

    constructor (config: Config, units: seq<string>)
      ensures this.config == config && this.units == units
    {
      this.config, this.units := config, units;
    }

    /** 1 exactly when some listed unit has the name, whatever the case: then and only then its list
        of components is in the set the listing stands for. */
    method OUsearch(inString: string) returns (found: int)
      requires KeepsCommas(config.fold)
      ensures found == 0 || found == 1
      ensures found == 1 <==> Present(config, Listed(config, units), Split(inString))
    {
      var matches: seq<string> := [];
      for i := 0 to |units|
        invariant matches != [] ==> Present(config, Listed(config, units), Split(inString))
        invariant matches == [] ==> forall j :: 0 <= j < i ==> FoldDn(config.fold, Split(units[j])) != FoldDn(config.fold, Split(inString))
      {
        SameNameSameComponents(config.fold, units[i], inString);
        if Fold(config.fold, units[i]) == Fold(config.fold, inString) {
          matches := matches + [units[i]];
          assert units[i] in units;
        }
      }
      return if matches != [] then 1 else 0;
    }

    /** New-ADOrganizationalUnit -name $name -Path $path */
    method NewUnit(name: string, path: string)
      requires KeepsCommas(config.fold) && NoComma(name)
      modifies this
      ensures Listed(config, units) == New(config, Listed(config, old(units)), name, Split(path))
      ensures units == old(units) + if Listed(config, units) == Listed(config, old(units)) then [] else ["OU=" + name + "," + path]
    {
      var unit := "OU=" + name + "," + path;
      SplitFirst("OU=" + name, path);
      var there := OUsearch(unit);
      var above := OUsearch(path);
      if name != "" && above == 1 && there == 0 {
        units := units + [unit];
        ListedMore(config, old(units), unit);
      }
    }

    /** One turn of the loop: make the unit on level `i` unless it is there. */
    method Turn(result: string, create: string, searh: string, ghost path: seq<string>, ghost i: nat)
      requires KeepsCommas(config.fold) && searh == result + "," + create
      requires i < Depth(path) && path[i] == result && NoComma(result) && Split(create) == Target(path, i + 1)
      modifies this
      ensures Split(searh) == Target(path, i)
      ensures var dir := Listed(config, old(units));
              && Listed(config, units) == Level(config, dir, path, i)
              && SplitAll(units) == SplitAll(old(units)) + if Listed(config, units) == dir then []
                                                          else [["OU=" + Text(result, config.blanks)] + Target(path, i + 1)]
    {
      SplitFirst(result, create);
      var found := OUsearch(searh);
      if found != 1 {
        var text := Text(result, config.blanks);
        TextNoComma(result, config.blanks);
        SplitFirst("OU=" + text, create);
        hide Split, Text, NoComma, Listed, New;
        NewUnit(text, create);
      }
    }

    /** The loop over the levels, outermost first. */
    method Descend(path1: seq<string>)
      requires KeepsCommas(config.fold) && path1 != [] && forall i :: 0 <= i < |path1| ==> NoComma(path1[i])
      modifies this
      ensures var dir := Listed(config, old(units));
              && Listed(config, units) == Built(config, dir, path1, 0)
              && SplitAll(units) == SplitAll(old(units)) + Made(config, dir, path1, 0)
    {
      var create, searh := EMPLOYEES, EMPLOYEES;
      ghost var dir, before := Listed(config, units), SplitAll(units);
      var i := |path1| - 4;
      ghost var n := Depth(path1);
      EmployeesIsBase();
      NoLevels(config, dir, path1);
      hide Built, Made, Level, Text, Target, Listed, Split, SplitAll, NoComma, KeepsCommas;
      while i >= 0
        invariant n == if i >= 0 then i + 1 else 0
        invariant n <= Depth(path1)
        invariant create == searh && Split(create) == Target(path1, n)
        invariant Listed(config, units) == Built(config, dir, path1, n)
        invariant SplitAll(units) == before + Made(config, dir, path1, n)
      {
        var result := path1[i];
        searh := result + "," + searh;
        OneLevel(config, dir, path1, i);
        Turn(result, create, searh, path1, i);
        create := result + "," + create;
        n := n - 1;
        i := i - 1;
      }
    }

    method Create(ouName: string)
      requires KeepsCommas(config.fold)
      modifies this
      ensures var path, dir := Split(ouName), Listed(config, old(units));
              && Listed(config, units) == Created(config, dir, path)
              && SplitAll(units) == SplitAll(old(units)) + if Present(config, dir, path) then [] else Made(config, dir, path, 0)
    {
      var found := OUsearch(ouName);
      if found == 1 {
        return;
      }
      forall i | 0 <= i < |Split(ouName)| ensures NoComma(Split(ouName)[i]) {
        SplitNoComma(ouName, i);
      }
      Descend(Split(ouName));
    }
  }
}
