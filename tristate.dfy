/**
  The TriState flag value: a three-valued logical value (True, False, or None for
  "unset / don't care") that a command-line flag library can set from a token,
  format back to a token, and query.

  The value itself is the datatype `TriState`; the variable a flag is bound to,
  which `Set` and `newTriState` update in place through a pointer, is the class
  `TriStateVar`.
 */
module Tristate {
  import Wrappers
  import Strings

  /** A TriState value. `None` is the zero value, then `False`, then `True`. */
  datatype TriState = None | False | True {

    /** The canonical token for this value; parsing it gives the value back. */
    function String(): (s: string)
      ensures Parse(s) == Wrappers.Some(this)
    {
      match this
      case None =>
        assert Strings.ToLower("None") == "none";
        "None"
      case False =>
        assert Strings.ToLower("False") == "false";
        "False"
      case True =>
        assert Strings.ToLower("True") == "true";
        "True"
    }

    /** The type name the flag library shows in help text. */
    function Type(): (name: string)
      ensures name == "TriState"
    {
      "TriState"
    }

    /** The value as an optional boolean: absent for None, otherwise whether it is True. */
    function Bool(): (b: Wrappers.Option<bool>)
      ensures b.None? <==> this == None
      ensures b.Some? ==> (b.value <==> this == True)
    {
      match this
      case None => Wrappers.None
      case False => Wrappers.Some(false)
      case True => Wrappers.Some(true)
    }

    /**
      The filter policy: when the value is set, whether it agrees with `b`;
      when it is None, `b` is ignored and the caller's `noneVal` decides.
     */
    function Match(b: bool, noneVal: bool): (r: bool)
      ensures this == None ==> r == noneVal
      ensures this != None ==> (r <==> (this == True) == b)
    {
      match Bool()
      case Some(v) => v == b
      case None => noneVal
    }

    /** Whether a preference was expressed: the value is not None, which is when Bool is present. */
    function IsSet(): (r: bool)
      ensures r <==> this != None
      ensures r <==> Bool().Some?
    {
      this != None
    }
  }

  /** The single error `Set` reports for a token outside the literal table. */
  datatype SetError = ErrBadTriStateValue {
    function Message(): (m: string)
      ensures m == "bad tristate value"
    {
      "bad tristate value"
    }
  }

  /** The reference table: the lower-case tokens accepted for each value. */
  function Literals(t: TriState): set<string> {
    match t
    case True => {"1", "t", "y", "true", "yes"}
    case False => {"0", "f", "n", "false", "no"}
    case None => {"-1", "u", "e", "b", "a", "unknown", "either", "both", "all", "any", "none", "null", "nil"}
  }

  /** No token is listed for two different values, so the table reads one way only. */
  lemma LiteralsDisjoint(w: string, x: TriState, y: TriState)
    requires w in Literals(x) && w in Literals(y)
    ensures x == y
  {
  }

  /**
    The switch on a lower-case token, case for case as the parser writes it:
    the value named by the case that lists the token, or nothing when no case
    does. `Literals` is the reference table; the contract says the switch reads
    it row by row.
   */
  function Lookup(lower: string): (r: Wrappers.Option<TriState>)
    ensures r == Wrappers.Some(True) <==> lower in Literals(True)
    ensures r == Wrappers.Some(False) <==> lower in Literals(False)
    ensures r == Wrappers.Some(None) <==> lower in Literals(None)
    ensures r.None? <==> lower !in Literals(True) && lower !in Literals(False) && lower !in Literals(None)
  {
    match lower
    case "1" | "t" | "y" | "true" | "yes" => Wrappers.Some(True)
    case "0" | "f" | "n" | "false" | "no" => Wrappers.Some(False)
    case "-1" | "u" | "e" | "b" | "a" | "unknown" | "either" | "both" | "all" | "any" | "none" | "null" | "nil" =>
      Wrappers.Some(None)
    case _ => Wrappers.None
  }

  /** The reading of a command-line token: the switch applied to its lower-case form. */
  function Parse(s: string): (r: Wrappers.Option<TriState>)
    ensures r.Some? ==> Strings.ToLower(s) in Literals(r.value)
    ensures r.None? ==> Strings.ToLower(s) !in Literals(True) && Strings.ToLower(s) !in Literals(False)
                        && Strings.ToLower(s) !in Literals(None)
  {
    Lookup(Strings.ToLower(s))
  }

  /** A token reads as `t` exactly when its lower-case form is in the row of `t`. */
  lemma ParseReadsTable(s: string, t: TriState)
    ensures Parse(s) == Wrappers.Some(t) <==> Strings.ToLower(s) in Literals(t)
  {
  }

  /** A token is refused exactly when its lower-case form is in no row of the table. */
  lemma ParseRefuses(s: string)
    ensures Parse(s).None? <==> forall t :: Strings.ToLower(s) !in Literals(t)
  {
  }

  /** Parsing ignores case: tokens that agree letter by letter up to case read the same. */
  lemma ParseCaseInsensitive(s: string, s': string)
    requires |s| == |s'|
    requires forall i :: 0 <= i < |s| ==> Strings.LowerChar(s[i]) == Strings.LowerChar(s'[i])
    ensures Parse(s) == Parse(s')
  {
    Strings.SameLowerOfCaseEqual(s, s');
  }

  /** A token reads the same as its lower-case form. */
  lemma ParseOfLower(s: string)
    ensures Parse(Strings.ToLower(s)) == Parse(s)
  {
    Strings.ToLowerIdempotent(s);
  }

  /** Every spelling the table lists, written as listed, reads as the value of its row. */
  lemma ListedSpellingsAccepted(w: string, t: TriState)
    requires w in Literals(t)
    ensures Parse(w) == Wrappers.Some(t)
  {
    assert forall i :: 0 <= i < |w| ==> !Strings.IsUpper(w[i]);
    Strings.ToLowerFixesLower(w);
    ParseReadsTable(w, t);
  }

  /** Distinct values have distinct canonical tokens. */
  lemma StringInjective(x: TriState, y: TriState)
    ensures x.String() == y.String() ==> x == y
  {
  }

  /** Upper-case and capitalised forms of the table's words are accepted. */
  lemma MixedCaseAccepted()
    ensures Parse("TRUE") == Wrappers.Some(True)
    ensures Parse("Yes") == Wrappers.Some(True)
    ensures Parse("No") == Wrappers.Some(False)
  {
    assert Strings.ToLower("TRUE") == "true";
    assert Strings.ToLower("Yes") == "yes";
    assert Strings.ToLower("No") == "no";
  }

  /** "Any" reads as None: the code accepts it although the comment above Set does not list it. */
  lemma AnyMeansNone()
    ensures Parse("Any") == Wrappers.Some(None)
    ensures Parse("UNKNOWN") == Wrappers.Some(None)
  {
    assert Strings.ToLower("Any") == "any";
    assert Strings.ToLower("UNKNOWN") == "unknown";
  }

  /** Words outside the table, and the empty token, are refused. */
  lemma UnknownWordsRefused()
    ensures Parse("doug") == Wrappers.None
    ensures Parse("maybe") == Wrappers.None
    ensures Parse("") == Wrappers.None
  {
    assert Strings.ToLower("doug") == "doug";
    assert Strings.ToLower("maybe") == "maybe";
  }

  /** A TriState variable: the storage a flag is bound to. */
  class TriStateVar {
    var value: TriState

    /** A fresh variable holds the zero value, None. */
    constructor ()
      ensures value == None
    {
      value := None;
    }

    /** The stored value, for libraries that retrieve the typed value. */
    function Get(): (v: TriState)
      reads this
      ensures v == value
    {
      value
    }

    /**
      Reads `s` through the switch on its lower-case form and stores the value
      it names; on any other token reports ErrBadTriStateValue and keeps the
      stored value.
     */
    method Set(s: string) returns (err: Wrappers.Outcome<SetError>)
      modifies this
      ensures Parse(s).Some? ==> err == Wrappers.Pass && value == Parse(s).value
      ensures Parse(s).None? ==> err == Wrappers.Fail(ErrBadTriStateValue) && value == old(value)
    {
      match Parse(s) {
        case Some(v) =>
          value := v;
        case None =>
          return Wrappers.Fail(ErrBadTriStateValue);
      }
      err := Wrappers.Pass;
    }
  }

  /** Stores `val` into the variable `p` and hands back that same variable. */
  method NewTriState(val: TriState, p: TriStateVar) returns (q: TriStateVar)
    modifies p
    ensures q == p && p.value == val
  {
    p.value := val;
    q := p;
  }

  /** Feeding a value's canonical token back through Set stores that value. */
  method SetFromString(p: TriStateVar, t: TriState) returns (err: Wrappers.Outcome<SetError>)
    modifies p
    ensures err == Wrappers.Pass && p.value == t
  {
    err := p.Set(t.String());
  }
}
