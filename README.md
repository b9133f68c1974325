# TriState flag value

A Dafny model of the `tristate` Go package: a command-line flag value that holds
one of three states, `True`, `False` or `None` ("unset / don't care"), instead of
a plain boolean. The flag library sets it from a typed token (`Set`), formats it
back (`String`), asks for its type name (`Type`) and for its typed value (`Get`);
callers query it with `Bool`, `Match` and `IsSet`.

Layout:

- `wrappers.dfy` — `Option` (absent plays the part of a nil pointer) and
  `Outcome` (`Pass` is a nil error).
- `strings.dfy` — module `Strings`: the lower-casing step the parser applies to
  its input, over the ASCII letters A–Z.
- `tristate.dfy` — module `Tristate`:
  - the datatype `TriState = None | False | True` (None is the zero value) with
    `String`, `Type`, `Bool`, `Match` and `IsSet` as its members;
  - the literal table `Literals` (one set of lower-case tokens per value), the
    switch `Lookup` on a lower-case token, and `Parse` = `Lookup` after
    lower-casing;
  - the class `TriStateVar`, the variable a flag is bound to, whose `Set` method
    updates its `value` in place, and `NewTriState`, which stores a default into
    such a variable.

`Literals` is the reference table and `Lookup` is the switch written case for
case; `Lookup`'s contract says the two agree row by row. `Set`'s contract ties
the new state to `Parse`; the lemmas beside it show that `Parse` reads the table
in both directions, that the rows are disjoint and that parsing ignores case,
and `String`'s contract says every value's token parses back to it.

The literal table holds 23 tokens: 5 for True, 5 for False and 13 for None. The
comment above `Set` (tristate.go:153) does not list `any` for None, but the
switch accepts it (tristate.go:165) and so does the test (tristate_test.go:15);
the model follows the code.

## Model

| member | source | states |
|---|---|---|
| `Tristate.TriStateVar.constructor` | tristate.go:104-113 | a freshly made variable holds the zero value None |
| `Tristate.NewTriState` | tristate.go:115-118 | stores the given value into the given variable, returns that same variable, and changes no other object |
| `Tristate.TriStateVar.Get` | tristate.go:121-123 | returns the value currently stored in the variable |
| `Tristate.TriState.Type` | tristate.go:140-142 | the type name is the constant "TriState" |
| `Tristate.TriStateVar.Set` | tristate.go:159-171 | when the token parses, reports no error and stores the parsed value; otherwise reports ErrBadTriStateValue and leaves the stored value unchanged |
| `Tristate.SetError.Message` | tristate.go:144-145 | the one parse error carries the message "bad tristate value" |
| `Tristate.Lookup` | tristate.go:160-169 | the switch selects True exactly for a token in the True row (1 t y true yes), False exactly for one in the False row (0 f n false no), None exactly for one in the None row (-1 u e b a unknown either both all any none null nil), and nothing exactly when no row lists the token |
| `Tristate.Parse` | tristate.go:160-169 | an accepted token's lower-case form is in the row of the value it reads as; a refused token's lower-case form is in no row |
| `Tristate.ParseReadsTable` | tristate.go:147-166 | a token of any casing reads as t exactly when its lower-case form is in t's row |
| `Tristate.ParseRefuses` | tristate.go:155-169 | a token is refused exactly when its lower-case form is in no row |
| `Tristate.LiteralsDisjoint` | tristate.go:160-166 | no token is listed in two rows, so every accepted token names exactly one value |
| `Tristate.ParseCaseInsensitive` | tristate.go:155-160 | two tokens that agree letter by letter up to case parse to the same result |
| `Tristate.ParseOfLower` | tristate.go:160 | a token parses exactly as its lower-case form does |
| `Tristate.TriState.String` | tristate.go:126-137 | every value's canonical token ("None", "False", "True") parses back to that value |
| `Tristate.ListedSpellingsAccepted` | tristate.go:160-166 | every token listed in a row, written as listed, is accepted and reads as that row's value |
| `Tristate.StringInjective` | tristate.go:126-137 | distinct values have distinct String forms |
| `Tristate.SetFromString` | tristate_test.go:68-74 | setting a variable from any value's String form succeeds and stores that value, whatever the variable held before |
| `Tristate.MixedCaseAccepted` | tristate_test.go:16-17 | "TRUE" and "Yes" parse as True, "No" as False |
| `Tristate.AnyMeansNone` | tristate.go:165 | "Any" and "UNKNOWN" parse as None |
| `Tristate.UnknownWordsRefused` | tristate.go:167-168 | words outside the table fall to the error case: "doug" (the word tristate_test.go:30 uses), "maybe" and the empty token are refused |
| `Tristate.TriState.Bool` | tristate.go:173-186 | absent exactly when the value is None; otherwise present and true exactly when the value is True |
| `Tristate.TriState.Match` | tristate.go:188-195 | for None returns noneVal whatever b is; otherwise returns whether (value is True) equals b |
| `Tristate.TriState.IsSet` | tristate.go:197-200 | holds exactly when the value is not None, which is exactly when Bool is present |
| `Strings.LowerChar` | tristate.go:160 | an upper-case ASCII letter maps to the lower-case letter at the same offset; any other character is unchanged; the result is never upper-case |
| `Strings.ToLower` | tristate.go:160 | lower-casing keeps the length of the token |
| `Strings.ToLowerAt` | tristate.go:160 | each character of the lower-cased token is the lower-cased character at the same position |
| `Strings.ToLowerFixesLower` | tristate.go:160 | a token with no upper-case letter is unchanged by lower-casing |
| `Strings.ToLowerIdempotent` | tristate.go:160 | lower-casing twice gives the same as lower-casing once |
| `Strings.SameLowerOfCaseEqual` | tristate.go:155-160 | tokens that agree up to case lower-case to the same string |

## Left out

- The eight registration functions `Flag`, `FlagP`, `FlagVar`, `FlagVarP`, `FlagFS`, `FlagPFS`, `FlagVarFS` and `FlagVarPFS` (tristate.go:55-102): they only hand a variable to `pflag.FlagSet.VarP`, a foreign flag library that is not part of this model. `NewTriState` models the one step they share, storing the default.
- The process-wide `CommandLine` flag set (tristate.go:49-53): mutable global state owned by the flag library.
- The command-line flag tests (tristate_test.go:62-174): they exercise the flag library's tokenising of `--tristate=x` and `-t x`; only their round-trip through `String` and `Set` is modelled, by `SetFromString`.
- Strings.ToLower: models Go's `strings.ToLower` for the ASCII letters A–Z only. Go maps every letter by its Unicode lower-case mapping, so a few non-ASCII code points (such as U+0130, which lower-cases to `i`) can turn a non-ASCII token into a listed word; the model does not accept those tokens.
- Out-of-range integers: Go's `TriState` is an `int`, so a conversion such as `TriState(7)` can make a value outside the three constants (for which `String` returns the empty string and `Bool` returns a pointer to false). The model's datatype is closed and has no such values.
- Tristate.TriState.Bool: Go returns a pointer to a freshly allocated bool on every call; the model returns an optional value, so pointer identity is not captured.
- `Get`: Go returns the value as an opaque `interface{}`; the model returns the `TriState` itself.
- `ErrBadTriStateValue`: Go's error is a unique pointer made by `errors.New`; the model has a one-constructor datatype, whose `Message` is "bad tristate value".
- Nil pointers: Go's `newTriState` and the pointer-receiver methods `Get`, `Bool`, `Match` and `IsSet` (tristate.go:116, 122, 177, 191, 199) panic when handed a nil `*TriState`. `Set` on a nil receiver panics only for an accepted token, at the assignments of tristate.go:162, 164 and 166; for any other token it still returns ErrBadTriStateValue (tristate.go:167-168) without touching the receiver. In the model a `TriStateVar` reference is never null and the query helpers take values, so none of these cases can be expressed.
- The numeric order None < False < True of the Go constants is not modelled; the package never compares values by order.
