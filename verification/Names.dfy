/** Printed names of IR elements: a repeated name gets a number. */
module Names {
  import opened Lang
  import opened Numerals

  /** An IR element: its identity and the name it was given, which may be empty. */
  datatype Element = Element(id: nat, name: string)

  /** How often each name has been given again, and the printed names. */
  datatype State = State(last: map<string, nat>, names: map<nat, string>)

  /** The printed name of the `k`-th repetition of a name. */
  function Printed(name: string, k: nat): string {
    if k == 0 then (if name == "" then Numeral(0) else name) else name + Numeral(k)
  }

  function Repetition(st: State, name: string): nat {
    if name in st.last then st.last[name] + 1 else 0
  }

  /** Register an element; the name stored first stays. */
  function Register(st: State, e: Element): State {
    var k := Repetition(st, e.name);
    State(st.last[e.name := k], if e.id in st.names then st.names else st.names[e.id := Printed(e.name, k)])
  }

  function RegisterAll(st: State, es: seq<Element>): State
    decreases es
  {
    if es == [] then st else Register(RegisterAll(st, es[..|es|-1]), es[|es|-1])
  }

  const EMPTY := State(map[], map[])

  /** Number of elements with a name. */
  function Count(es: seq<Element>, name: string): nat
    decreases es
  {
    if es == [] then 0 else Count(es[..|es|-1], name) + if es[|es|-1].name == name then 1 else 0
  }

  predicate DistinctElements(es: seq<Element>) {
    forall i, j | 0 <= i < j < |es| :: es[i].id != es[j].id
  }

  predicate NamesFrom(es: seq<Element>, names: set<string>) {
    forall e <- es :: e.name in names
  }

  lemma {:induction false} RepetitionIsCount(es: seq<Element>, name: string)
    ensures Repetition(RegisterAll(EMPTY, es), name) == Count(es, name)
    decreases es
  {
    if es != [] {
      RepetitionIsCount(es[..|es|-1], name);
    }
  }

  lemma {:induction false} OnlyRegistered(es: seq<Element>, id: nat)
    requires forall e <- es :: e.id != id
    ensures id !in RegisterAll(EMPTY, es).names
    decreases es
  {
    if es != [] {
      OnlyRegistered(es[..|es|-1], id);
      assert es[|es|-1] in es;
    }
  }

  /** Registration gives the `i`-th element the name of its repetition. */
  lemma {:induction false} RegisteredNames(es: seq<Element>, i: nat)
    requires DistinctElements(es) && i < |es|
    ensures var names := RegisterAll(EMPTY, es).names;
      es[i].id in names && names[es[i].id] == Printed(es[i].name, Count(es[..i], es[i].name))
    decreases es
  {
    var n := |es| - 1;
    var front := es[..n];
    if i < n {
      RegisteredNames(front, i);
      assert front[..i] == es[..i];
    } else {
      OnlyRegistered(front, es[n].id);
      RepetitionIsCount(front, es[n].name);
    }
  }

  lemma {:induction false} CountGrows(es: seq<Element>, i: nat, j: nat)
    requires i < j <= |es|
    ensures Count(es[..i], es[i].name) < Count(es[..j], es[i].name)
    decreases j
  {
    assert es[..j][..j-1] == es[..j-1];
    if i < j - 1 {
      CountGrows(es, i, j - 1);
    }
  }

  /** Two different names of which one is printed like a repetition of the other. */
  ghost predicate Clash(a: string, b: string) {
    (a == "" && b == Numeral(0)) || exists k: nat :: k > 0 && b == a + Numeral(k)
  }

  ghost predicate Safe(names: set<string>) {
    forall a, b | a in names && b in names :: !Clash(a, b)
  }

  /** Repetitions of two names that are printed alike, the second name not being the shorter one. */
  lemma AlikeClash(a: string, j: nat, b: string, k: nat)
    requires a != b && |a| <= |b| && Printed(a, j) == Printed(b, k)
    ensures Clash(a, b)
  {
    var s := Printed(a, j);
    if k == 0 {
      if j == 0 {
        assert a == "" && b == Numeral(0);
      } else {
        assert b == a + Numeral(j);
      }
    } else if j > 0 || a == "" {
      assert s == a + Numeral(j) == b + Numeral(k);
      var d := b[|a|..];
      assert b == s[..|b|] && a == s[..|a|];
      assert a == b[..|a|] && b == a + d;
      assert d != "";
      assert s[|a|..] == Numeral(j) && s[|a|..] == d + Numeral(k);
      var m := NumeralPrefix(d, j, k);
    }
  }

  lemma PrintedInjective(names: set<string>, a: string, j: nat, b: string, k: nat)
    requires Safe(names) && a in names && b in names && Printed(a, j) == Printed(b, k)
    ensures a == b && j == k
  {
    if a != b {
      if |a| <= |b| {
        AlikeClash(a, j, b, k);
      } else {
        AlikeClash(b, k, a, j);
      }
    } else if j > 0 && k > 0 {
      var s := a + Numeral(j);
      assert s[|a|..] == Numeral(j) && s[|a|..] == Numeral(k);
      NumeralInjective(j, k);
    } else if j != k {
      SelfAlike(a, j + k);
    }
  }

  /** A repetition is never printed like the first occurrence. */
  lemma SelfAlike(a: string, k: nat)
    requires k > 0
    ensures Printed(a, 0) != Printed(a, k)
  {
    if a == "" {
      assert a + Numeral(k) == Numeral(k);
      if Numeral(k) == Numeral(0) { NumeralInjective(k, 0); }
    } else {
      assert |a + Numeral(k)| > |a|;
    }
  }

  /** All printed names of a registration are distinct. */
  ghost predicate PrintedDistinct(es: seq<Element>) {
    var names := RegisterAll(EMPTY, es).names;
    forall i, j | 0 <= i < j < |es| ::
      es[i].id in names && es[j].id in names && names[es[i].id] != names[es[j].id]
  }

  lemma SafeNamesAreDistinct(names: set<string>, es: seq<Element>)
    requires Safe(names) && DistinctElements(es) && NamesFrom(es, names)
    ensures PrintedDistinct(es)
  {
    var printed := RegisterAll(EMPTY, es).names;
    forall i, j | 0 <= i < j < |es|
      ensures es[i].id in printed && es[j].id in printed && printed[es[i].id] != printed[es[j].id]
    {
      RegisteredNames(es, i);
      RegisteredNames(es, j);
      if printed[es[i].id] == printed[es[j].id] {
        PrintedInjective(names, es[i].name, Count(es[..i], es[i].name), es[j].name, Count(es[..j], es[j].name));
        CountGrows(es, i, j);
      }
    }
  }

  /** `n` elements of one name. */
  function Repeated(name: string, n: nat): (es: seq<Element>)
    ensures |es| == n && forall i | 0 <= i < n :: es[i] == Element(i, name)
  {
    seq(n, i requires 0 <= i < n => Element(i, name))
  }

  lemma {:induction false} CountRepeated(name: string, n: nat, other: string)
    ensures Count(Repeated(name, n), other) == if name == other then n else 0
    decreases n
  {
    if n > 0 {
      assert Repeated(name, n)[..n-1] == Repeated(name, n - 1);
      CountRepeated(name, n - 1, other);
    }
  }

  /** Registering the first name until it is printed like the second one. */
  lemma ClashIsReached(a: string, b: string, k: nat) returns (es: seq<Element>)
    requires a != b && Printed(a, k) == b && b != ""
    ensures DistinctElements(es) && NamesFrom(es, {a, b}) && !PrintedDistinct(es)
  {
    hide RegisterAll, Count;
    var front := Repeated(a, k + 1);
    es := front + [Element(k + 1, b)];
    RegisteredNames(es, k);
    RegisteredNames(es, k + 1);
    assert es[..k] == Repeated(a, k) && es[..k + 1] == front;
    CountRepeated(a, k, a);
    CountRepeated(a, k + 1, b);
  }

  /** Names from a set are printed distinctly in every order of registration if and only if no two of them clash. */
  lemma DistinctExactlyWhenSafe(names: set<string>)
    ensures Safe(names) <==> forall es | DistinctElements(es) && NamesFrom(es, names) :: PrintedDistinct(es)
  {
    if Safe(names) {
      forall es | DistinctElements(es) && NamesFrom(es, names)
        ensures PrintedDistinct(es)
      {
        SafeNamesAreDistinct(names, es);
      }
    } else {
      var a, b :| a in names && b in names && Clash(a, b);
      var k: nat := 0;
      if !(a == "" && b == Numeral(0)) {
        k :| k > 0 && b == a + Numeral(k);
      }
      assert a != b by { assert |b| > |a|; }
      var es := ClashIsReached(a, b, k);
    }
  }

  /** Names that do not end in a digit are safe, the empty name included. */
  lemma NoDigitEndsAreSafe(names: set<string>)
    requires forall b | b in names && b != "" :: !IsDigit(b[|b|-1])
    ensures Safe(names)
  {
    forall a, b | a in names && b in names
      ensures !Clash(a, b)
    {
      forall k: nat
        ensures b != a + Numeral(k)
      {
        var s := a + Numeral(k);
        assert s[|s|-1] == Numeral(k)[|Numeral(k)|-1];
      }
    }
  }

  class IRNamesScope {
    var valueNamesLast: map<string, nat>
    var valueNames: map<nat, string>

    constructor ()
      ensures Now() == EMPTY
    {
      valueNamesLast, valueNames := map[], map[];
    }

    ghost function Now(): State
      reads this
    {
      State(valueNamesLast, valueNames)
    }

    method RestNames()
      modifies this
      ensures Now() == EMPTY
    {
      valueNamesLast, valueNames := map[], map[];
    }

    method CreateIRElementName(e: Element) returns (name: string)
      modifies this
      ensures Now() == Register(old(Now()), e) && name == Printed(e.name, Repetition(old(Now()), e.name))
    {
      name := e.name;
      if e.name !in valueNamesLast {
        valueNamesLast := valueNamesLast[e.name := 0];
        if name == "" {
          name := ToString(0);
        }
      } else {
        valueNamesLast := valueNamesLast[e.name := valueNamesLast[e.name] + 1];
        var number := ToString(valueNamesLast[e.name]);
        name := name + number;
      }
      if e.id !in valueNames {
        valueNames := valueNames[e.id := name];
      }
    }

    /** The name stored for an element; an element without one is registered first. */
    method GetName(e: Element) returns (name: string)
      modifies this
      ensures Now() == if e.id in old(valueNames) then old(Now()) else Register(old(Now()), e)
      ensures e.id in valueNames && name == valueNames[e.id]
      ensures forall id | id in old(valueNames) :: id in valueNames && valueNames[id] == old(valueNames)[id]
    {
      if e.id !in valueNames {
        name := CreateIRElementName(e);
      } else {
        name := valueNames[e.id];
      }
    }
  }

  method ToString(n: nat) returns (s: string)
    ensures s == Numeral(n)
  {
    s := "";
    var m := n;
    while m >= 10
      invariant Numeral(n) == Numeral(m) + s
    {
      assert Numeral(m) + s == Numeral(m / 10) + ([Digit(m % 10)] + s);
      s := [Digit(m % 10)] + s;
      m := m / 10;
    }
    s := [Digit(m)] + s;
  }
}
