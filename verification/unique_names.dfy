/** SName of PS/adduser.ps1, and the renames and creations that use it.  `-like` on a name without
    wildcards is equality up to case; `fold` is whatever folding is meant. */
module UniqueNames {
  import opened OuNames

  // ------------------------------------------------------------ one name

  predicate InUse(fold: char -> char, names: set<string>, name: string) {
    Fold(fold, name) in names
  }

  function Padded(name: string, k: nat): (r: string)
    ensures |r| == |name| + k
  {
    if k == 0 then name else Padded(name, k - 1) + "_"
  }

  /** The first of name, name_, name__, ... that is free.  There is one, as each name in use can
      stand in the way only once. */
  function FreeName(fold: char -> char, names: set<string>, name: string): (r: string)
    decreases names
  {
    if InUse(fold, names, name) then FreeName(fold, names - {Fold(fold, name)}, name + "_") else name
  }

  lemma PaddedMore(name: string, k: nat)
    ensures Padded(name + "_", k) == Padded(name, k + 1)
  {
  }

  /** The result is not in use and has the fewest underscores of all that are not. */
  lemma {:induction false} FreeNameIsFirst(fold: char -> char, names: set<string>, name: string) returns (k: nat)
    ensures FreeName(fold, names, name) == Padded(name, k)
    ensures !InUse(fold, names, Padded(name, k))
    ensures forall j :: 0 <= j < k ==> InUse(fold, names, Padded(name, j))
    decreases names
  {
    if !InUse(fold, names, name) {
      return 0;
    }
    var rest := names - {Fold(fold, name)};
    var m := FreeNameIsFirst(fold, rest, name + "_");
    k := m + 1;
    PaddedMore(name, m);
    assert |Fold(fold, Padded(name, k))| != |Fold(fold, name)|;
    forall j | 0 <= j < k ensures InUse(fold, names, Padded(name, j)) {
      if j > 0 {
        PaddedMore(name, j - 1);
        assert InUse(fold, rest, Padded(name + "_", j - 1));
      }
    }
  }

  /** SName */
  method SName(fold: char -> char, names: set<string>, userName: string) returns (unique: string)
    ensures unique == FreeName(fold, names, userName)
  {
    unique := userName;
    ghost var left := names;
    var z := 1;
    while z != 0
      invariant left <= names
      invariant forall n :: n in names && |n| >= |unique| ==> n in left
      invariant z != 0 ==> FreeName(fold, left, unique) == FreeName(fold, names, userName)
      invariant z == 0 ==> unique == FreeName(fold, names, userName)
      decreases left, z
    {
      if Fold(fold, unique) in names {
        left := left - {Fold(fold, unique)};
        unique := unique + "_";
      } else {
        z := 0;
      }
    }
  }

  // ------------------------------------------------------------ a whole file of rows

  /** Account name -> display name, as Get-ADUser shows them.  Accounts are found without regard to
      case, so the key is the folded account name. */
  type Accounts = map<string, string>

  datatype Row = Row(sam: string, name: string, active: bool)

  function Names(fold: char -> char, accounts: Accounts): set<string> {
    set sam | sam in accounts :: Fold(fold, accounts[sam])
  }

  /** A row that is not active moves and disables its account, which renames nothing.  An active row
      renames a known account unless it has the name already, and creates an unknown one; both
      under a name SName gives. */
  function Apply(fold: char -> char, accounts: Accounts, row: Row): Accounts {
    var sam := Fold(fold, row.sam);
    if !row.active || (sam in accounts && Fold(fold, accounts[sam]) == Fold(fold, row.name)) then accounts
    else accounts[sam := FreeName(fold, Names(fold, accounts), row.name)]
  }

  function ApplyAll(fold: char -> char, accounts: Accounts, rows: seq<Row>): Accounts {
    if rows == [] then accounts else Apply(fold, ApplyAll(fold, accounts, rows[..|rows| - 1]), rows[|rows| - 1])
  }

  ghost predicate Unique(fold: char -> char, accounts: Accounts) {
    forall a, b :: a in accounts && b in accounts && a != b ==> Fold(fold, accounts[a]) != Fold(fold, accounts[b])
  }

  /** What one row does: nothing if it is not active; and if it is, its account has afterwards a name
      that is the row's up to case, if it had such a name before, or else the row's with the fewest
      underscores that nobody had.  Every other account keeps its name, and none appears or
      disappears. */
  lemma RowEffect(fold: char -> char, accounts: Accounts, row: Row) returns (k: nat)
    ensures var sam, after := Fold(fold, row.sam), Apply(fold, accounts, row);
            && (!row.active ==> after == accounts)
            && (forall a :: a != sam ==> (a in after <==> a in accounts) && (a in accounts ==> after[a] == accounts[a]))
            && (row.active && sam in accounts && Fold(fold, accounts[sam]) == Fold(fold, row.name) ==> after == accounts)
            && (row.active && !(sam in accounts && Fold(fold, accounts[sam]) == Fold(fold, row.name)) ==>
                  && sam in after && after[sam] == Padded(row.name, k)
                  && (forall a :: a in accounts ==> Fold(fold, accounts[a]) != Fold(fold, Padded(row.name, k)))
                  && (forall j :: 0 <= j < k ==> exists a :: a in accounts && Fold(fold, accounts[a]) == Fold(fold, Padded(row.name, j))))
  {
    k := FreeNameIsFirst(fold, Names(fold, accounts), row.name);
    forall j | 0 <= j < k ensures exists a :: a in accounts && Fold(fold, accounts[a]) == Fold(fold, Padded(row.name, j)) {
      assert InUse(fold, Names(fold, accounts), Padded(row.name, j));
    }
  }

  lemma ApplyUnique(fold: char -> char, accounts: Accounts, row: Row)
    requires Unique(fold, accounts)
    ensures Unique(fold, Apply(fold, accounts, row))
  {
    var k := FreeNameIsFirst(fold, Names(fold, accounts), row.name);
  }

  /** No two accounts ever share a name, whatever rows are processed. */
  lemma {:induction false} AllUnique(fold: char -> char, accounts: Accounts, rows: seq<Row>)
    requires Unique(fold, accounts)
    ensures Unique(fold, ApplyAll(fold, accounts, rows))
  {
    if rows != [] {
      AllUnique(fold, accounts, rows[..|rows| - 1]);
      ApplyUnique(fold, ApplyAll(fold, accounts, rows[..|rows| - 1]), rows[|rows| - 1]);
    }
  }

  ghost predicate Taken(fold: char -> char, accounts: Accounts, row: Row) {
    exists other :: other in accounts && other != Fold(fold, row.sam) && Fold(fold, accounts[other]) == Fold(fold, row.name)
  }

  /** Processing a row again changes nothing if and only if it is not active or no other account has
      the name.  Where one has, the account's own padded name counts as in use, so each run renames
      it again. */
  lemma RepeatedRow(fold: char -> char, accounts: Accounts, row: Row)
    requires Unique(fold, accounts)
    ensures var once := Apply(fold, accounts, row);
            Apply(fold, once, row) == once <==> !row.active || !Taken(fold, accounts, row)
  {
    var once := Apply(fold, accounts, row);
    var k := FreeNameIsFirst(fold, Names(fold, accounts), row.name);
    if once != accounts {
      var sam := Fold(fold, row.sam);
      var own := once[sam];
      if Taken(fold, accounts, row) {
        var other :| other in accounts && other != sam && Fold(fold, accounts[other]) == Fold(fold, row.name);
        assert InUse(fold, Names(fold, accounts), row.name);
        assert Fold(fold, own) != Fold(fold, row.name);
        var j := FreeNameIsFirst(fold, Names(fold, once), row.name);
        assert Fold(fold, own) in Names(fold, once);
        assert Apply(fold, once, row)[sam] != own;
      } else {
        assert !InUse(fold, Names(fold, accounts), row.name);
      }
    }
  }

  class AccountDirectory {
    const fold: char -> char
    var accounts: Accounts

    constructor (fold: char -> char, accounts: Accounts)
      ensures this.fold == fold && this.accounts == accounts
    {
      this.fold, this.accounts := fold, accounts;
    }

    /** One turn of the script's main loop: the disable, change and create branches. */
    method Process(row: Row)
      modifies this
      ensures accounts == Apply(fold, old(accounts), row)
    {
      if !row.active {
        return;
      }
      var sam := Fold(fold, row.sam);
      if sam in accounts {
        var chName := SName(fold, Names(fold, accounts), row.name);
        if Fold(fold, accounts[sam]) != Fold(fold, row.name) {
          accounts := accounts[sam := chName];
        }
      } else {
        var sName := SName(fold, Names(fold, accounts), row.name);
        accounts := accounts[sam := sName];
      }
    }

    method ProcessAll(rows: seq<Row>)
      modifies this
      ensures accounts == ApplyAll(fold, old(accounts), rows)
    {
      for i := 0 to |rows|
        invariant accounts == ApplyAll(fold, old(accounts), rows[..i])
      {
        assert rows[..i + 1][..i] == rows[..i];
        Process(rows[i]);
      }
      assert rows[..|rows|] == rows;
    }
  }
}
