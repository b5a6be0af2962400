/** Distinguished names as text: taken apart at the commas, compared without regard to case, and
    trimmed as the scripts trim them. */
module OuNames {

  type Dn = seq<string>

  const EMPLOYEES := "OU=Employees,DC=moskvich,DC=ru"
  const BASE: Dn := ["OU=Employees", "DC=moskvich", "DC=ru"]

  // ------------------------------------------------------------ text

  function Split(s: string): (parts: seq<string>)
    ensures |parts| > 0
  {
    if s == "" then [""]
    else
      var rest := Split(s[1..]);
      if s[0] == ',' then [""] + rest else [[s[0]] + rest[0]] + rest[1..]
  }

  function Join(parts: seq<string>): string
    requires |parts| > 0
  {
    if |parts| == 1 then parts[0] else parts[0] + "," + Join(parts[1..])
  }

  /** Splitting loses nothing. */
  lemma {:induction false} JoinSplit(s: string)
    ensures Join(Split(s)) == s
  {
    if s != "" {
      JoinSplit(s[1..]);
      var rest := Split(s[1..]);
      if s[0] == ',' {
        assert ([""] + rest)[1..] == rest;
      } else if |rest| > 1 {
        assert ([[s[0]] + rest[0]] + rest[1..])[1..] == rest[1..];
        assert [s[0]] + rest[0] + "," + Join(rest[1..]) == [s[0]] + (rest[0] + "," + Join(rest[1..]));
      }
    }
  }

  ghost predicate NoComma(s: string) {
    forall i :: 0 <= i < |s| ==> s[i] != ','
  }

  lemma {:induction false} SplitNoComma(s: string, i: nat)
    requires i < |Split(s)|
    ensures NoComma(Split(s)[i])
  {
    if s != "" {
      var rest := Split(s[1..]);
      SplitNoComma(s[1..], if s[0] == ',' then (if i == 0 then 0 else i - 1) else i);
    }
  }

  /** Joining a component to a name puts it in front of the name's components. */
  lemma {:induction false} SplitFirst(part: string, rest: string)
    requires NoComma(part)
    ensures Split(part + "," + rest) == [part] + Split(rest)
  {
    var s := part + "," + rest;
    if part == "" {
      assert s[1..] == rest;
    } else {
      assert s[1..] == part[1..] + "," + rest;
      SplitFirst(part[1..], rest);
      assert [part[0]] + part[1..] == part;
    }
  }

  lemma {:induction false} SplitOne(part: string)
    requires NoComma(part)
    ensures Split(part) == [part]
  {
    if part != "" {
      SplitOne(part[1..]);
      assert [part[0]] + part[1..] == part;
    }
  }

  function TrimStart(s: string, chars: set<char>): string {
    if s != "" && s[0] in chars then TrimStart(s[1..], chars) else s
  }

  function TrimEnd(s: string, chars: set<char>): string {
    if s != "" && s[|s| - 1] in chars then TrimEnd(s[..|s| - 1], chars) else s
  }

  const OU_CHARS: set<char> := {'O', 'U', '='}
  /** What counts as white space. */
  const BLANKS: set<char> :=
    {'\U{9}', '\U{A}', '\U{B}', '\U{C}', '\U{D}', ' ', '\U{85}', '\U{A0}', '\U{1680}',
     '\U{2000}', '\U{2001}', '\U{2002}', '\U{2003}', '\U{2004}', '\U{2005}', '\U{2006}', '\U{2007}', '\U{2008}',
     '\U{2009}', '\U{200A}', '\U{2028}', '\U{2029}', '\U{202F}', '\U{205F}', '\U{3000}'}

  /** The name a component is given when it is created: "OU=" is trimmed as a set of characters,
      from both ends; adduser.ps1 trims blanks as well. */
  function Text(rdn: string, blanks: bool): string {
    var text := TrimEnd(TrimStart(rdn, OU_CHARS), OU_CHARS);
    if blanks then TrimEnd(TrimStart(text, BLANKS), BLANKS) else text
  }

  function Fold(fold: char -> char, s: string): (r: string)
    ensures |r| == |s|
  {
    seq(|s|, i requires 0 <= i < |s| => fold(s[i]))
  }

  function FoldDn(fold: char -> char, dn: Dn): (r: Dn)
    ensures |r| == |dn| && forall i :: 0 <= i < |dn| ==> r[i] == Fold(fold, dn[i])
  {
    seq(|dn|, i requires 0 <= i < |dn| => Fold(fold, dn[i]))
  }

  /** Folding leaves the separators alone and makes none. */
  ghost predicate KeepsCommas(fold: char -> char) {
    forall ch :: fold(ch) == ',' <==> ch == ','
  }

  lemma {:induction false} SplitFold(fold: char -> char, s: string)
    requires KeepsCommas(fold)
    ensures Split(Fold(fold, s)) == FoldDn(fold, Split(s))
  {
    if s != "" {
      SplitFold(fold, s[1..]);
      assert Fold(fold, s)[1..] == Fold(fold, s[1..]);
      var rest := Split(s[1..]);
      if s[0] != ',' {
        assert Fold(fold, [s[0]] + rest[0]) == [fold(s[0])] + Fold(fold, rest[0]);
      }
    }
  }

  /** Two names are the same up to case exactly when their components are, one by one: the scripts
      compare whole names, and this module lists of components. */
  lemma SameNameSameComponents(fold: char -> char, a: string, b: string)
    requires KeepsCommas(fold)
    ensures Fold(fold, a) == Fold(fold, b) <==> FoldDn(fold, Split(a)) == FoldDn(fold, Split(b))
  {
    SplitFold(fold, a);
    SplitFold(fold, b);
    JoinSplit(Fold(fold, a));
    JoinSplit(Fold(fold, b));
  }

  lemma BasePlain()
    ensures NoComma("OU=Employees") && NoComma("DC=moskvich") && NoComma("DC=ru")
  {
  }

  lemma EmployeesIsBase()
    ensures Split(EMPLOYEES) == BASE
  {
    hide Split, NoComma;
    var ou, city, ru := "OU=Employees", "DC=moskvich", "DC=ru";
    BasePlain();
    assert EMPLOYEES == ou + "," + (city + "," + ru);
    SplitFirst(ou, city + "," + ru);
    SplitFirst(city, ru);
    SplitOne(ru);
  }

  lemma {:induction false} TrimNoComma(s: string, chars: set<char>)
    requires NoComma(s)
    ensures NoComma(TrimStart(s, chars)) && NoComma(TrimEnd(s, chars))
  {
    if s != "" {
      TrimNoComma(s[1..], chars);
      TrimNoComma(s[..|s| - 1], chars);
    }
  }

  lemma TextNoComma(rdn: string, blanks: bool)
    requires NoComma(rdn)
    ensures NoComma(Text(rdn, blanks))
  {
    TrimNoComma(rdn, OU_CHARS);
    TrimNoComma(TrimStart(rdn, OU_CHARS), OU_CHARS);
    var text := TrimEnd(TrimStart(rdn, OU_CHARS), OU_CHARS);
    TrimNoComma(text, BLANKS);
    TrimNoComma(TrimStart(text, BLANKS), BLANKS);
  }

  // ------------------------------------------------------------ what trimming leaves

  /** What is trimmed off the front is the longest part of such characters. */
  lemma {:induction false} TrimStartAt(s: string, chars: set<char>) returns (a: nat)
    ensures a <= |s| && TrimStart(s, chars) == s[a..]
    ensures forall i :: 0 <= i < a ==> s[i] in chars
    ensures a < |s| ==> s[a] !in chars
  {
    if s != "" && s[0] in chars {
      var b := TrimStartAt(s[1..], chars);
      a := b + 1;
      assert s[1..][b..] == s[a..];
      assert forall i :: 1 <= i < a ==> s[i] == s[1..][i - 1];
    } else {
      a := 0;
    }
  }

  lemma {:induction false} TrimEndAt(s: string, chars: set<char>) returns (b: nat)
    ensures b <= |s| && TrimEnd(s, chars) == s[..b]
    ensures forall i :: b <= i < |s| ==> s[i] in chars
    ensures b > 0 ==> s[b - 1] !in chars
  {
    if s != "" && s[|s| - 1] in chars {
      b := TrimEndAt(s[..|s| - 1], chars);
      assert s[..|s| - 1][..b] == s[..b];
    } else {
      b := |s|;
    }
  }

  /** `part` is what is left of `s` when characters of `chars` are taken off both its ends, as many
      as there are. */
  ghost predicate Inside(s: string, chars: set<char>, part: string) {
    exists a: nat, b: nat :: Cuts(s, chars, a, b) && part == s[a..b]
  }

  ghost predicate Cuts(s: string, chars: set<char>, a: nat, b: nat) {
    && a <= b <= |s|
    && (forall i :: 0 <= i < a || b <= i < |s| ==> s[i] in chars)
    && (a < b ==> s[a] !in chars && s[b - 1] !in chars)
  }

  lemma TrimBoth(s: string, chars: set<char>)
    ensures Inside(s, chars, TrimEnd(TrimStart(s, chars), chars))
  {
    var a := TrimStartAt(s, chars);
    var b := TrimEndAt(s[a..], chars);
    assert forall i :: a <= i < |s| ==> s[i] == s[a..][i - a];
    assert s[a..][..b] == s[a..a + b];
    assert Cuts(s, chars, a, a + b);
  }

  /** There is only one such part: nothing is left exactly when there are no other characters. */
  lemma InsideUnique(s: string, chars: set<char>, p: string, q: string)
    requires Inside(s, chars, p) && Inside(s, chars, q)
    ensures p == q
  {
    var a: nat, b: nat :| Cuts(s, chars, a, b) && p == s[a..b];
    var x: nat, y: nat :| Cuts(s, chars, x, y) && q == s[x..y];
    SameCut(s, chars, a, b, x, y);
  }

  lemma SameCut(s: string, chars: set<char>, a: nat, b: nat, x: nat, y: nat)
    requires Cuts(s, chars, a, b) && Cuts(s, chars, x, y)
    ensures s[a..b] == s[x..y]
  {
    if a < b && x < y {
      assert !(a < x) && !(x < a) && !(b < y) && !(y < b);
    } else if a < b {
      assert false;
    } else if x < y {
      assert false;
    }
  }

  lemma TrimPrefix(name: string)
    ensures TrimStart("OU=" + name, OU_CHARS) == TrimStart(name, OU_CHARS)
  {
    assert ("OU=" + name)[1..] == "U=" + name;
    assert ("U=" + name)[1..] == "=" + name;
    assert ("=" + name)[1..] == name;
    assert TrimStart("=" + name, OU_CHARS) == TrimStart(name, OU_CHARS);
    assert TrimStart("U=" + name, OU_CHARS) == TrimStart("=" + name, OU_CHARS);
  }

  /** What a component is trimmed to. */
  lemma TextTrims(rdn: string)
    ensures Inside(rdn, {'O', 'U', '='}, Text(rdn, false)) && Inside(Text(rdn, false), BLANKS, Text(rdn, true))
  {
    TrimBoth(rdn, OU_CHARS);
    TrimBoth(Text(rdn, false), BLANKS);
  }

  /** The name an organizational unit OU=name is made under: what is left of `name` between the
      characters O, U and = at its ends, and of that, where blanks are trimmed, what is left between
      the blanks. */
  lemma TextInside(name: string)
    ensures Inside(name, {'O', 'U', '='}, Text("OU=" + name, false))
    ensures Inside(Text("OU=" + name, false), BLANKS, Text("OU=" + name, true))
  {
    TrimPrefix(name);
    TrimBoth(name, OU_CHARS);
    TrimBoth(Text("OU=" + name, false), BLANKS);
  }

  /** Nothing is trimmed exactly when neither end is of such a character. */
  lemma InsideIsAll(s: string, chars: set<char>, part: string)
    requires Inside(s, chars, part)
    ensures |part| <= |s|
    ensures |part| == |s| <==> s == "" || (s[0] !in chars && s[|s| - 1] !in chars)
    ensures |part| == |s| ==> part == s
  {
    var a: nat, b: nat :| Cuts(s, chars, a, b) && part == s[a..b];
    if a == b && s != "" {
      assert s[0] in chars;
    }
  }

  /** The unit is made under its own name if and only if the name neither begins nor ends with O, U
      or =, nor, where blanks are trimmed, with a blank. */
  lemma TextIsName(name: string, blanks: bool)
    ensures |Text("OU=" + name, blanks)| <= |name|
    ensures |Text("OU=" + name, blanks)| == |name| <==> name == "" || (PlainEnds(name, {'O', 'U', '='}) && (blanks ==> PlainEnds(name, BLANKS)))
    ensures |Text("OU=" + name, blanks)| == |name| ==> Text("OU=" + name, blanks) == name
  {
    TextInside(name);
    var half := Text("OU=" + name, false);
    InsideIsAll(name, {'O', 'U', '='}, half);
    if blanks {
      InsideIsAll(half, BLANKS, Text("OU=" + name, true));
    }
    hide Text, Inside;
  }

  predicate PlainEnds(name: string, chars: set<char>)
    requires name != ""
  {
    name[0] !in chars && name[|name| - 1] !in chars
  }

  /** The unit CEO would be made as CE. */
  lemma CeoIsTrimmed(blanks: bool)
    ensures Text("OU=CEO", blanks) == "CE"
  {
    TrimPrefix("CEO");
    assert "OU=" + "CEO" == "OU=CEO";
    CeoCut();
    assert TrimStart("CE", BLANKS) == "CE" && TrimEnd("CE", BLANKS) == "CE";
  }

  lemma CeoCut()
    ensures TrimEnd(TrimStart("CEO", OU_CHARS), OU_CHARS) == "CE"
  {
    assert "CEO"[..2] == "CE";
    assert TrimStart("CEO", OU_CHARS) == "CEO";
    assert TrimEnd("CE", OU_CHARS) == "CE";
  }
}
