/**
 * The password generator component: its state, the generate handler and the
 * rule that clears the warning once a character class is selected again.
 *
 * State setters are plain field assignments, and the effect that runs after a
 * flag changes is an explicit method call. The random choice of an index is
 * replaced by a supplied sequence of indices, one per character drawn.
 */
module App {
  import opened Charset

  /** The message shown when a generation run finds no class selected. */
  const NoSelectionWarning: string := "Please select at least one character type."

  /** How many characters a run with target `length` draws: none for a negative length. */
  function DrawCount(length: int): nat
  {
    if length < 0 then 0 else length
  }

  /** The generated password's characters are all in `sel`'s combined alphabet, so none comes from a disabled class. */
  lemma OnlyEnabledClasses(sel: Selection, p: string)
    requires forall i :: 0 <= i < |p| ==> p[i] in Characters(sel)
    ensures forall i, k :: 0 <= i < |p| && p[i] in Alphabet(k) ==> sel.Includes(k)
  {
    forall i, k | 0 <= i < |p| && p[i] in Alphabet(k) ensures sel.Includes(k) {
      if !sel.Includes(k) {
        DisabledClassExcluded(sel, k, p[i]);
      }
    }
  }

  /**
   * The loop of the generate handler: appends `length` characters, the i-th one
   * being the character of `characters` at the i-th supplied index.
   */
  method DrawPassword(characters: string, length: int, draws: seq<nat>) returns (generated: string)
    requires length <= |draws|
    requires forall i :: 0 <= i < length ==> draws[i] < |characters|
    ensures |generated| == DrawCount(length)
    ensures forall i :: 0 <= i < |generated| ==> generated[i] == characters[draws[i]]
    ensures forall c :: c in generated ==> c in characters
  {
    generated := "";
    var i := 0;
    while i < length
      invariant 0 <= i <= DrawCount(length)
      invariant |generated| == i
      invariant forall j :: 0 <= j < i ==> generated[j] == characters[draws[j]]
    {
      var randomIndex := draws[i];
      generated := generated + [characters[randomIndex]];
      i := i + 1;
    }
  }

  class PasswordApp {
    var password: string
    var length: int
    var includeUppercase: bool
    var includeLowercase: bool
    var includeNumbers: bool
    var includeSymbols: bool
    var warning: string

    /** The initial state: empty password, length 12, every class but symbols selected, no warning. */
    constructor ()
      ensures password == "" && length == 12 && warning == ""
      ensures includeUppercase && includeLowercase && includeNumbers && !includeSymbols
    {
      password := "";
      length := 12;
      includeUppercase := true;
      includeLowercase := true;
      includeNumbers := true;
      includeSymbols := false;
      warning := "";
    }

    /** The classes the four include flags currently select. */
    function Selected(): Selection
      reads this
    {
      Selection(includeUppercase, includeLowercase, includeNumbers, includeSymbols)
    }

    /** The effect run after a flag changes: the warning is cleared once any class is selected. */
    method SyncWarning()
      modifies this`warning
      ensures Selected().Any() ==> warning == ""
      ensures !Selected().Any() ==> warning == old(warning)
    {
      if includeUppercase || includeLowercase || includeNumbers || includeSymbols {
        warning := "";
      }
    }

    /**
     * The generate handler. With no class selected it sets the warning, clears
     * the password and draws nothing; otherwise it clears the warning and sets
     * the password to `length` characters drawn from the combined alphabet.
     */
    method HandleGenerate(draws: seq<nat>)
      requires Selected().Any() ==>
                 length <= |draws| && forall i :: 0 <= i < length ==> draws[i] < |Characters(Selected())|
      modifies this`password, this`warning
      ensures length == old(length) && Selected() == old(Selected())
      ensures !Selected().Any() ==> warning == NoSelectionWarning && password == ""
      ensures Selected().Any() ==> warning == "" && |password| == DrawCount(length)
      ensures Selected().Any() ==>
                forall i :: 0 <= i < |password| ==> password[i] == Characters(Selected())[draws[i]]
      ensures forall i :: 0 <= i < |password| ==> password[i] in Characters(Selected())
      ensures forall i, k :: 0 <= i < |password| && password[i] in Alphabet(k) ==> Selected().Includes(k)
    {
      ghost var sel := Selected();
      var characters := "";
      if includeUppercase { characters := characters + Uppercase; }
      assert characters == Part(sel, Upper);
      if includeLowercase { characters := characters + Lowercase; }
      assert characters == Part(sel, Upper) + Part(sel, Lower);
      if includeNumbers { characters := characters + Numbers; }
      assert characters == Part(sel, Upper) + Part(sel, Lower) + Part(sel, Digit);
      if includeSymbols { characters := characters + Symbols; }
      assert characters == Part(sel, Upper) + Part(sel, Lower) + Part(sel, Digit) + Part(sel, Symbol);
      ConcatInOrder(sel);

      if !includeUppercase && !includeLowercase && !includeNumbers && !includeSymbols {
        warning := NoSelectionWarning;
        password := "";
        return;
      }

      warning := "";
      var generated := DrawPassword(characters, length, draws);
      password := generated;
      OnlyEnabledClasses(Selected(), password);
    }
  }
}
