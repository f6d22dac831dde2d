/**
 * The character classes of the password generator and the combined
 * alphabet that a generation run draws from.
 *
 * The four class alphabets are fixed string constants, and the combined
 * alphabet is the concatenation of the enabled ones in the fixed order
 * upper, lower, numbers, symbols.
 */
module Charset {

  const Uppercase: string := "ABCDEFGHIJKLMNOPQRSTUVWXYZ"
  const Lowercase: string := "abcdefghijklmnopqrstuvwxyz"
  const Numbers: string := "0123456789"
  const Symbols: string := "!@#$%^&*()_+[]{}|;:,.<>?"

  /** The four character classes a user can switch on or off. */
  datatype CharClass = Upper | Lower | Digit | Symbol

  /** The order in which enabled classes are appended to the combined alphabet. */
  const ClassOrder: seq<CharClass> := [Upper, Lower, Digit, Symbol]

  /** The fixed alphabet bound to each class. */
  function Alphabet(k: CharClass): (r: string)
    ensures |r| == Size(k)
    ensures |r| > 0
  {
    match k
    case Upper => Uppercase
    case Lower => Lowercase
    case Digit => Numbers
    case Symbol => Symbols
  }

  /** The size of each class alphabet: 26, 26, 10 and 24 characters. */
  function Size(k: CharClass): nat
  {
    match k
    case Upper => 26
    case Lower => 26
    case Digit => 10
    case Symbol => 24
  }

  /**
   * The class a character belongs to by its code point: letters and digits by
   * their ASCII ranges, everything else is a symbol.
   */
  function ClassOf(c: char): CharClass
  {
    if 'A' <= c <= 'Z' then Upper
    else if 'a' <= c <= 'z' then Lower
    else if '0' <= c <= '9' then Digit
    else Symbol
  }

  /** Which classes the four include flags switch on. */
  datatype Selection = Selection(upper: bool, lower: bool, numbers: bool, symbols: bool)
  {
    predicate Includes(k: CharClass)
    {
      match k
      case Upper => upper
      case Lower => lower
      case Digit => numbers
      case Symbol => symbols
    }

    /** At least one class is switched on. */
    predicate Any()
    {
      upper || lower || numbers || symbols
    }
  }

  /** The alphabet class `k` contributes under `sel`: its own if enabled, nothing otherwise. */
  function Part(sel: Selection, k: CharClass): string
  {
    if sel.Includes(k) then Alphabet(k) else ""
  }

  /** The alphabets of the classes of `ks` that `sel` includes, concatenated in the order of `ks`. */
  function Concat(ks: seq<CharClass>, sel: Selection): string
  {
    if ks == [] then "" else Concat(ks[..|ks| - 1], sel) + Part(sel, ks[|ks| - 1])
  }

  /**
   * The combined alphabet a generation run draws from. Its length is the sum of
   * the enabled classes' sizes, so it is empty exactly when no class is enabled.
   */
  function Characters(sel: Selection): (r: string)
    ensures |r| == (if sel.upper then Size(Upper) else 0) + (if sel.lower then Size(Lower) else 0)
                 + (if sel.numbers then Size(Digit) else 0) + (if sel.symbols then Size(Symbol) else 0)
    ensures |r| > 0 <==> sel.Any()
  {
    ConcatInOrder(sel);
    Concat(ClassOrder, sel)
  }

  /** The combined alphabet is the four conditional appends, upper first and symbols last. */
  lemma ConcatInOrder(sel: Selection)
    ensures Concat(ClassOrder, sel)
         == Part(sel, Upper) + Part(sel, Lower) + Part(sel, Digit) + Part(sel, Symbol)
  {
    ConcatOfFour(Upper, Lower, Digit, Symbol, sel);
  }

  lemma ConcatOfFour(a: CharClass, b: CharClass, c: CharClass, d: CharClass, sel: Selection)
    ensures Concat([a, b, c, d], sel) == Part(sel, a) + Part(sel, b) + Part(sel, c) + Part(sel, d)
  {
    var ks := [a, b, c, d];
    assert ks[..3] == [a, b, c];
    assert [a, b, c][..2] == [a, b];
    assert [a, b][..1] == [a];
    assert [a][..0] == [];
    assert Concat([a], sel) == "" + Part(sel, a) == Part(sel, a);
    assert Concat([a, b], sel) == Part(sel, a) + Part(sel, b);
    assert Concat([a, b, c], sel) == Part(sel, a) + Part(sel, b) + Part(sel, c);
  }

  lemma CharactersInOrder(sel: Selection)
    ensures Characters(sel)
         == (if sel.upper then Uppercase else "") + (if sel.lower then Lowercase else "")
          + (if sel.numbers then Numbers else "") + (if sel.symbols then Symbols else "")
  {
    ConcatInOrder(sel);
  }

  /** A character is in the concatenation exactly when it is in the alphabet of an included class of `ks`. */
  lemma {:induction false} ConcatMembership(ks: seq<CharClass>, sel: Selection, c: char)
    ensures c in Concat(ks, sel) <==> exists k :: k in ks && sel.Includes(k) && c in Alphabet(k)
  {
    if ks != [] {
      var init, last := ks[..|ks| - 1], ks[|ks| - 1];
      ConcatMembership(init, sel, c);
      if c in Concat(ks, sel) && c !in Concat(init, sel) {
        assert last in ks && sel.Includes(last) && c in Alphabet(last);
      }
      if exists k :: k in ks && sel.Includes(k) && c in Alphabet(k) {
        var k :| k in ks && sel.Includes(k) && c in Alphabet(k);
        if k != last {
          assert k in init;
        }
      }
    }
  }

  /**
   * A character is in the combined alphabet exactly when its class is enabled
   * and it belongs to that class's alphabet.
   */
  lemma CharactersMembership(sel: Selection, c: char)
    ensures c in Characters(sel) <==> sel.Includes(ClassOf(c)) && c in Alphabet(ClassOf(c))
  {
    ConcatMembership(ClassOrder, sel, c);
    if c in Characters(sel) {
      var k :| k in ClassOrder && sel.Includes(k) && c in Alphabet(k);
      AlphabetClass(k, c);
    }
  }

  /** No character of a disabled class is in the combined alphabet. */
  lemma DisabledClassExcluded(sel: Selection, k: CharClass, c: char)
    requires !sel.Includes(k) && c in Alphabet(k)
    ensures c !in Characters(sel)
  {
    AlphabetClass(k, c);
    CharactersMembership(sel, c);
  }

  predicate NoDuplicates(s: string)
  {
    forall i, j :: 0 <= i < j < |s| ==> s[i] != s[j]
  }

  /** Every character of a class alphabet is classified as that class, so the four alphabets are pairwise disjoint. */
  lemma AlphabetClass(k: CharClass, c: char)
    requires c in Alphabet(k)
    ensures ClassOf(c) == k
  {
    var s := Alphabet(k);
    var i :| 0 <= i < |s| && s[i] == c;
    ClassAt(k, i);
  }

  /** The character at index `i` of the alphabet of `k` is classified as `k`. */
  lemma ClassAt(k: CharClass, i: int)
    requires 0 <= i < |Alphabet(k)|
    ensures ClassOf(Alphabet(k)[i]) == k
  {
    match k
    case Upper => UppercaseAt(i);
    case Lower => LowercaseAt(i);
    case Digit => NumbersAt(i);
    case Symbol => SymbolsAt(i);
  }

  lemma UppercaseAt(i: int)
    requires 0 <= i < |Uppercase|
    ensures 'A' <= Uppercase[i] <= 'Z'
  {
    assert forall j :: 0 <= j < |Uppercase| ==> 'A' <= Uppercase[j] <= 'Z';
  }

  lemma LowercaseAt(i: int)
    requires 0 <= i < |Lowercase|
    ensures 'a' <= Lowercase[i] <= 'z'
  {
    assert forall j :: 0 <= j < |Lowercase| ==> 'a' <= Lowercase[j] <= 'z';
  }

  lemma NumbersAt(i: int)
    requires 0 <= i < |Numbers|
    ensures '0' <= Numbers[i] <= '9'
  {
    assert forall j :: 0 <= j < |Numbers| ==> '0' <= Numbers[j] <= '9';
  }

  lemma SymbolsAt(i: int)
    requires 0 <= i < |Symbols|
    ensures ClassOf(Symbols[i]) == Symbol
  {
    assert forall j :: 0 <= j < |Symbols| ==> Position(Symbol, Symbols[j]) == j;
    ListedSymbolClass(Symbols[i]);
  }

  /** Every character the symbol alphabet lists lies outside the letter and digit ranges. */
  lemma ListedSymbolClass(c: char)
    requires Position(Symbol, c) < |Symbols|
    ensures ClassOf(c) == Symbol
  {
  }

  lemma AlphabetsDisjoint(k1: CharClass, k2: CharClass, c: char)
    requires k1 != k2
    ensures !(c in Alphabet(k1) && c in Alphabet(k2))
  {
    if c in Alphabet(k1) && c in Alphabet(k2) {
      AlphabetClass(k1, c);
      AlphabetClass(k2, c);
    }
  }

  /** The position of `c` within the alphabet of class `k`, computed from `c` alone. */
  function Position(k: CharClass, c: char): int
  {
    match k
    case Upper => c as int - 'A' as int
    case Lower => c as int - 'a' as int
    case Digit => c as int - '0' as int
    case Symbol =>
      match c
      case '!' => 0
      case '@' => 1
      case '#' => 2
      case '$' => 3
      case '%' => 4
      case '^' => 5
      case '&' => 6
      case '*' => 7
      case '(' => 8
      case ')' => 9
      case '_' => 10
      case '+' => 11
      case '[' => 12
      case ']' => 13
      case '{' => 14
      case '}' => 15
      case '|' => 16
      case ';' => 17
      case ':' => 18
      case ',' => 19
      case '.' => 20
      case '<' => 21
      case '>' => 22
      case '?' => 23
      case _ => 24
  }

  /** No class alphabet repeats a character. */
  lemma AlphabetNoDuplicates(k: CharClass)
    ensures NoDuplicates(Alphabet(k))
  {
    var s := Alphabet(k);
    match k
    case Upper =>
      assert forall j :: 0 <= j < |Uppercase| ==> Position(Upper, Uppercase[j]) == j;
    case Lower =>
      assert forall j :: 0 <= j < |Lowercase| ==> Position(Lower, Lowercase[j]) == j;
    case Digit =>
      assert forall j :: 0 <= j < |Numbers| ==> Position(Digit, Numbers[j]) == j;
    case Symbol =>
      assert forall j :: 0 <= j < |Symbols| ==> Position(Symbol, Symbols[j]) == j;
  }
  lemma AppendNoDuplicates(a: string, b: string)
    requires NoDuplicates(a) && NoDuplicates(b)
    requires forall c :: c in a ==> c !in b
    ensures NoDuplicates(a + b)
  {
    forall i, j | 0 <= i < j < |a + b| ensures (a + b)[i] != (a + b)[j] {
      if i < |a| <= j {
        assert (a + b)[i] in a && (a + b)[j] == b[j - |a|];
      }
    }
  }

  lemma {:induction false} ConcatNoDuplicates(ks: seq<CharClass>, sel: Selection)
    requires forall i, j :: 0 <= i < j < |ks| ==> ks[i] != ks[j]
    ensures NoDuplicates(Concat(ks, sel))
  {
    if ks != [] {
      var init, last := ks[..|ks| - 1], ks[|ks| - 1];
      ConcatNoDuplicates(init, sel);
      AlphabetNoDuplicates(last);
      forall c | c in Concat(init, sel) ensures c !in Part(sel, last) {
        ConcatMembership(init, sel, c);
        var k :| k in init && sel.Includes(k) && c in Alphabet(k);
        AlphabetsDisjoint(k, last, c);
      }
      AppendNoDuplicates(Concat(init, sel), Part(sel, last));
    }
  }

  /**
   * The combined alphabet repeats no character, so distinct indices name
   * distinct characters.
   */
  lemma CharactersNoDuplicates(sel: Selection)
    ensures NoDuplicates(Characters(sel))
  {
    assert forall i :: 0 <= i < |ClassOrder| ==> Rank(ClassOrder[i]) == i;
    ConcatNoDuplicates(ClassOrder, sel);
  }

  /** The position of each class in the append order. */
  function Rank(k: CharClass): nat
  {
    match k
    case Upper => 0
    case Lower => 1
    case Digit => 2
    case Symbol => 3
  }
}
