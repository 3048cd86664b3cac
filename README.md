# Tutor agent tools, modelled in Dafny

This project models the deterministic core of a tutoring agent's tools:

- `cal` in `tutor_agent/tools/calculator.py` is an n-ary calculator. It validates its input and dispatches on the lower-cased operation name. It folds the list of numbers for add, subtract, multiply and divide. It also handles power, average, max and min. Input and operation errors are returned as error strings. An exception raised by `**` (zero to a negative power, an overflowing result) escapes `cal`.
- `physics_constants_lookup` in `tutor_agent/tools/formula.py` looks up a table of 24 physical constants. Called with no arguments it gives an overview grouped by category. It can list one category, or find one constant by its normalised name. Failing an exact match, it searches for partial matches in names and descriptions.
- `physics_calc` in the same file resolves physics formulas. It normalises the law name and can answer an information request about a law. Otherwise, for each of nine laws, it resolves the parameter aliases (`mass`/`m`, …) and picks the quantity to solve for. Missing parameters, Python exceptions and unknown laws are all answered.
- `memorize`, `memorize_list`, `forget` and `_set_initial_states` in `tutor_agent/tools/memory.py` update the agent's session-state dictionary in place.

The modules are:

- `Text` (`text.dfy`): Python's `lower()`, the key normalisation `lower().replace(" ", "_").replace("-", "_")` and the substring test `t in s`.
- `Calculator` (`calculator.dfy`): the specification function `Evaluate`, with the loops of `cal` as methods proved against it.
- `Constants` (`constants.dfy`): the constant table, the specification function `Expected` and the method `Lookup`. Its grouping, category selection and partial-match loops are proved against their reference functions.
- `Physics` (`physics.dfy`): one function per law handler, each with a lemma stating what it solves; the dispatcher `Compute`; and the entry point `PhysicsCalc`. The law table is indexed by `LawId`; `Entry` gives each law's record and `LawName` its key. The user-facing error messages are the constructors of `Message`, and `MessageText` gives their exact wording. A result's formula and law context are kept as the table entry they quote (`Formula`, `Context`), and `FormulaText`, `SummaryText` and `PhenomenaText` render them.
- `Memory` (`memory.dfy`): the JSON-like values held in the state, and the class `SessionState`. Its methods update the state step by step, as the Python does. Each is proved equal to a reference function of the old state.

Python semantics are written out:

- truthiness (`if f and c`, `if session`);
- the nested `kwargs.get(long, kwargs.get(short, default))`, where a long name passed with the value `None` still wins;
- the `TypeError` raised by arithmetic on `None` and the `ZeroDivisionError` raised by `/`, both caught by `physics_calc` and answered as a calculation error;
- `in`, `append`, `remove` and `[...]` on whatever value the state holds, including the exceptions they raise.

## Model

Each physics law handler (`NewtonSecondLaw`, `KineticEnergy`, …, `SnellsLaw`) is specified by the `*Solves`/`*Cases` lemmas in its rows. The memory reference functions `MemorizeListStep`, `ForgetStep` and `InitialStep` are specified by the lemmas that follow the `SessionState` rows.

| member | source | states |
|---|---|---|
| Text.NormalizeKeyAgrees | tutor_agent/tools/formula.py:391 | two names that agree character by character up to letter case and the choice among space, hyphen and underscore normalise to the same key |
| Text.NormalizeKeyIdempotent | tutor_agent/tools/formula.py:391 | a normalised key holds no upper-case letter, space or hyphen, so normalising it again changes nothing |
| Text.IsSubstringAt | tutor_agent/tools/formula.py:291 | Python's substring test holds exactly when the term occurs at some offset |
| Calculator.Evaluate | tutor_agent/tools/calculator.py:31-133 | an empty list gives "No numbers provided" and an unparsable element gives "All arguments must be numbers". Otherwise the result is an error exactly when the operation is unknown, a division has fewer than two numbers or a zero divisor, or a power does not have exactly two numbers. Each of these gets its own message: "Unknown operation" naming the lower-cased name, the divide-arity message, "Division by zero", or the power-arity message |
| Calculator.Max | tutor_agent/tools/calculator.py:119-123 | the result is an element of the list and no element exceeds it |
| Calculator.Min | tutor_agent/tools/calculator.py:125-129 | the result is an element of the list and exceeds no element |
| Calculator.SubtractAll | tutor_agent/tools/calculator.py:66-74 | the subtraction loop yields the first number minus the sum of the rest |
| Calculator.MultiplyAll | tutor_agent/tools/calculator.py:76-83 | the multiplication loop, starting from 1, yields the product of the list |
| Calculator.DivideAll | tutor_agent/tools/calculator.py:85-99 | the division loop fails with "Division by zero" exactly when a divisor after the first number is zero; otherwise it yields the first number divided by each of the others in turn |
| Calculator.Cal | tutor_agent/tools/calculator.py:31-133 | `cal` returns exactly what `Evaluate` specifies |
| Calculator.OperationCaseInsensitive | tutor_agent/tools/calculator.py:57 | any two operation names that agree up to letter case give the same result for every list of numbers |
| Calculator.EmptyFirst | tutor_agent/tools/calculator.py:45-47 | an empty list is rejected before the operation name is looked at, even an unknown one |
| Calculator.SumPermutation | tutor_agent/tools/calculator.py:62 | the sum does not depend on the order of the numbers |
| Calculator.ProductPermutation | tutor_agent/tools/calculator.py:78-81 | the product does not depend on the order of the numbers |
| Calculator.AddMultiplyOrderFree | tutor_agent/tools/calculator.py:60-83 | `add` and `multiply` give the same result for any reordering of the numbers |
| Calculator.QuotientTimesDivisors | tutor_agent/tools/calculator.py:85-99 | the quotient times the product of the divisors gives back the first number, so `divide` inverts `multiply` |
| Calculator.DivideByZeroFails | tutor_agent/tools/calculator.py:92-95 | a zero anywhere after the first number makes `divide` fail with "Division by zero" |
| Calculator.SubtractAddsBack | tutor_agent/tools/calculator.py:60-74 | on a list of numbers `subtract` (in any letter case) succeeds. Its result plus the sum of the other numbers is the first number, and its result plus that of `add` is twice the first number |
| Calculator.SumBounds | tutor_agent/tools/calculator.py:112 | elements within [lo, hi] give a sum within [n·lo, n·hi] |
| Calculator.AverageBetween | tutor_agent/tools/calculator.py:110-117 | the average lies between the minimum and the maximum |
| Constants.Categories | tutor_agent/tools/formula.py:264 | a category is listed exactly when some constant has it |
| Constants.Find | tutor_agent/tools/formula.py:276-277 | a name is found exactly when it is a key of the table, and then the entry under that key is returned |
| Constants.Expected | tutor_agent/tools/formula.py:230-307 | with neither argument given the result is the overview. A given category always answers by category, whether or not a name is also given. A name alone answers with a found constant, partial matches or an error |
| Constants.GroupSummaries | tutor_agent/tools/formula.py:231-240 | the grouping loop yields the overview's map from category to summaries |
| Constants.SelectCategory | tutor_agent/tools/formula.py:252-255 | the selection loop yields exactly the constants of the category, in table order |
| Constants.SelectMatches | tutor_agent/tools/formula.py:289-292 | the search loop yields exactly the constants whose name or lower-cased description contains the term, in table order |
| Constants.Lookup | tutor_agent/tools/formula.py:7-307 | `physics_constants_lookup` returns exactly what `Expected` specifies |
| Constants.InCategoryCounts | tutor_agent/tools/formula.py:252-255 | the constants listed for a category are those of the table with that category, each as often as in the table |
| Constants.DistinctOnce | tutor_agent/tools/formula.py:21-225 | with distinct keys, every entry occurs once in the table |
| Constants.ListedOnceUnderOwnCategory | tutor_agent/tools/formula.py:231-240 | every constant is listed once under its own category and under no other |
| Constants.GroupedByCategory | tutor_agent/tools/formula.py:231-240 | the overview has a key for exactly the categories that occur, and each maps to the summaries of that category's constants in table order |
| Constants.EmptyCategory | tutor_agent/tools/formula.py:257-268 | a category that no constant has selects nothing |
| Constants.TableKeys | tutor_agent/tools/formula.py:21-225 | the table has 24 entries under distinct keys |
| Constants.TableCategories | tutor_agent/tools/formula.py:264 | the categories that occur are exactly the seven category names |
| Constants.MatchingCounts | tutor_agent/tools/formula.py:289-292 | the partial matches are the matching constants of the table, each as often as in the table |
| Constants.OverviewListsEachOnce | tutor_agent/tools/formula.py:230-247 | the overview counts 24 constants and lists each of them exactly once, under its own category |
| Constants.CategoryBeforeName | tutor_agent/tools/formula.py:250-268 | when a category is given the name is ignored |
| Constants.CategoryListingExact | tutor_agent/tools/formula.py:250-268 | a category is listed exactly when its lower-cased form is one of the seven names. The listing holds exactly that category's constants, and its count is their number. Otherwise the error offers the seven names |
| Constants.NameFound | tutor_agent/tools/formula.py:271-286 | a name is found exactly when its normalised form is a key, and then the entry under that key is returned |
| Constants.NameSearched | tutor_agent/tools/formula.py:288-307 | failing an exact match, partial matches are returned exactly when some constant matches, even when only one does, and they are exactly the matching constants. Otherwise the first 10 keys and the total of 24 are returned |
| Constants.NameSpellings | tutor_agent/tools/formula.py:273-277 | any name that normalises to `speed_of_light` finds the speed of light under that key |
| Constants.SpacedSpelling | tutor_agent/tools/formula.py:273 | "Speed of Light" normalises to `speed_of_light` |
| Constants.HyphenatedSpelling | tutor_agent/tools/formula.py:273 | "speed-of-light" normalises to `speed_of_light` |
| Constants.UpperCaseSpelling | tutor_agent/tools/formula.py:273 | "SPEED_OF_LIGHT" normalises to `speed_of_light` |
| Constants.CategoryCaseInsensitive | tutor_agent/tools/formula.py:251 | "ATOMIC" lists the same constants as "atomic" |
| Physics.ResolveFirstPassed | tutor_agent/tools/formula.py:417 | in a chained `kwargs.get` the first alias passed wins, even when passed as `None`. With none passed the default applies. The resolved value always comes from an alias or is the default |
| Physics.LawNamesAreKeys | tutor_agent/tools/formula.py:322-384 | the list of law names offered in errors is the nine table keys, in table order |
| Physics.FindLaw | tutor_agent/tools/formula.py:412 | a law is found exactly for the nine table keys, and it is the law stored under that key |
| Physics.NewtonSecondLawSolves | tutor_agent/tools/formula.py:415-431 | fails with the missing-parameter message exactly when mass or acceleration is `None`; otherwise yields m·a in newtons |
| Physics.KineticEnergySolves | tutor_agent/tools/formula.py:433-449 | fails exactly when mass or velocity is `None`; otherwise yields an energy whose double is m·v², non-negative for a non-negative mass |
| Physics.PotentialEnergySolves | tutor_agent/tools/formula.py:451-468 | fails exactly when mass or height is `None`. A `None` gravity raises and gives a calculation error. Otherwise the result is m·g·h in joules |
| Physics.MomentumSolves | tutor_agent/tools/formula.py:470-487 | fails exactly when mass or velocity is `None`; otherwise yields m·v |
| Physics.CoulombsLawSolves | tutor_agent/tools/formula.py:567-587 | fails exactly when a charge or the distance is `None`. A `None` constant is a calculation error, and so is a zero distance (division by zero). Otherwise the force F satisfies F·r² = k·\|q1·q2\| |
| Physics.WaveEquationCases | tutor_agent/tools/formula.py:489-527 | fails exactly when fewer than two of f, λ and c are truthy. It solves c when f and λ are truthy, otherwise λ when f and c are, otherwise f |
| Physics.WaveEquationSolves | tutor_agent/tools/formula.py:496-524 | whichever of c, λ and f is solved for satisfies c = f·λ with the two given values |
| Physics.OhmsLawCases | tutor_agent/tools/formula.py:529-565 | fails exactly when fewer than two of V, I and R are truthy. It solves R when V and I are truthy, otherwise I, otherwise V, always together with the power |
| Physics.OhmsLawSolves | tutor_agent/tools/formula.py:536-563 | whichever of R, I and V is solved for satisfies V = I·R with the two given values, and the power is V·I |
| Physics.ResistanceAndPower | tutor_agent/tools/formula.py:536-545 | the resistance R solves V = I·R, and the power is V·I |
| Physics.CurrentAndPower | tutor_agent/tools/formula.py:546-554 | the current I solves V = I·R, and the power is V·I |
| Physics.VoltageAndPower | tutor_agent/tools/formula.py:555-563 | the voltage is I·R, and the power is V·I |
| Physics.IdealGasLawCases | tutor_agent/tools/formula.py:589-633 | fails exactly when fewer than three of P, V, n and T are given. With all four, nothing is returned. With three and a `None` gas constant, the result is a calculation error. With three and a gas constant, the missing quantity is computed exactly when its formula's divisor (V, P, n·R or R·T) is non-zero; otherwise the `ZeroDivisionError` caught at formula.py:667-669 gives a division-by-zero calculation error |
| Physics.IdealGasLawSolves | tutor_agent/tools/formula.py:599-630 | whichever of P, V, T and n is missing is solved for so that PV = nRT holds, in that quantity's units |
| Physics.SnellsLawSolves | tutor_agent/tools/formula.py:635-658 | fails with the missing-index message unless n1, n2 and θ1 are truthy. It reports total internal reflection exactly when \|n1·sin θ1 / n2\| > 1. Otherwise it yields arcsin of that value, in degrees |
| Physics.Compute | tutor_agent/tools/formula.py:410-665 | the compute path never answers with law information. It answers "unknown law", with the summaries of all laws, exactly for a name that is neither a table key nor "force" |
| Physics.PhysicsCalc | tutor_agent/tools/formula.py:309-669 | an information request answers with the law's table entry exactly when the normalised name is a key, and with an unknown-law error otherwise. Any other call goes to the compute path |
| Physics.CalcComputes | tutor_agent/tools/formula.py:391-412 | without an information request the normalised name is computed |
| Physics.SeparatorInsensitive | tutor_agent/tools/formula.py:391 | law names that differ only in letter case and separators behave identically |
| Physics.OhmsLawSpellings | tutor_agent/tools/formula.py:391 | "Ohms Law", "ohms-law" and "OHMS_LAW" all name `ohms_law` |
| Physics.ForceAliasComputesOnly | tutor_agent/tools/formula.py:394-415 | without an information request, "force" computes exactly when "newton_second_law" does and yields the same computed quantity. When it does not compute, its whole outcome equals that of "newton_second_law" (a computed "force" result carries no law entry). Information on "force" is an unknown law |
| Physics.WaveRoundTrip | tutor_agent/tools/formula.py:489-527 | the speed computed from f and λ, given back with f, yields λ |
| Physics.OhmsLawExample | tutor_agent/tools/formula.py:529-545 | "Ohms Law" with 12 V and 2 A gives 6 Ω and 24 W |
| Physics.SnellTotalInternalReflection | tutor_agent/tools/formula.py:635-646 | from n = 1.5 into n = 1.0 at 60 degrees the ray is totally reflected |
| Physics.PotentialEnergyExplicitNone | tutor_agent/tools/formula.py:451-468 | an explicit `gravity=None` overrides the 9.81 default and fails the calculation; omitting gravity uses 9.81 |
| Physics.IdealGasOverDetermined | tutor_agent/tools/formula.py:589-633 | with all four gas quantities given nothing is returned |
| Physics.CoulombZeroDistance | tutor_agent/tools/formula.py:567-587 | Coulomb's law at zero distance is a calculation error (division by zero) |
| Memory.Contains | tutor_agent/tools/memory.py:100 | `value in x` raises `TypeError` exactly for `None`, booleans and numbers; on a list it is membership |
| Memory.Append | tutor_agent/tools/memory.py:101 | only a list can be appended to, at its end; anything else raises `AttributeError` |
| Memory.Remove | tutor_agent/tools/memory.py:137 | only a list has `remove`; anything else raises `AttributeError` |
| Memory.Index | tutor_agent/tools/memory.py:157-159 | `session[key]` succeeds exactly on a dictionary holding the key. It raises `KeyError` for another dictionary and `TypeError` for any other value |
| Memory.SessionState.Memorize | tutor_agent/tools/memory.py:105-119 | the value is stored under the key, and the status names both |
| Memory.SessionState.MemorizeList | tutor_agent/tools/memory.py:85-102 | the new state and the status are those of the reference function `MemorizeListStep` |
| Memory.SessionState.Forget | tutor_agent/tools/memory.py:122-138 | the new state and the status are those of the reference function `ForgetStep` |
| Memory.SessionState.SetInitialStates | tutor_agent/tools/memory.py:141-160 | the new state and any exception are those of the reference function `InitialStep` |
| Memory.MemorizeOnlyTouchesKey | tutor_agent/tools/memory.py:117-119 | `memorize` changes no other key, and storing the same value again changes nothing |
| Memory.MemorizeListOtherKeys | tutor_agent/tools/memory.py:97-102 | `memorize_list` changes no other key and always leaves the key present. It never raises when the key is new or holds a list |
| Memory.MemorizeListAppendsOnce | tutor_agent/tools/memory.py:98-101 | afterwards the list holds the value. It is unchanged when the value was already there; otherwise the value is appended at the end |
| Memory.MemorizeListKeepsNoDuplicates | tutor_agent/tools/memory.py:100-101 | a list without duplicates stays without duplicates |
| Memory.MemorizeListIdempotent | tutor_agent/tools/memory.py:97-102 | a second identical call leaves the state and status as one call does, including when the first call raised |
| Memory.RemoveFirstCounts | tutor_agent/tools/memory.py:137 | `list.remove` of a value the list holds takes out its first occurrence and keeps everything else in order, so the list has one fewer of the value and nothing else changes in count |
| Memory.RemoveFirstAt | tutor_agent/tools/memory.py:137 | the occurrence `list.remove` takes out is the first, and the elements before and after it are kept in order |
| Memory.RemoveFirstAbsent | tutor_agent/tools/memory.py:137 | `list.remove` of a value the list does not hold leaves the list alone |
| Memory.RemoveFirstAppended | tutor_agent/tools/memory.py:101 | removing a value just appended, which occurred nowhere else, gives the list back |
| Memory.ForgetMissingOrNone | tutor_agent/tools/memory.py:133-134 | a missing key raises `KeyError` and changes nothing; a `None` becomes an empty list |
| Memory.ForgetOtherKeys | tutor_agent/tools/memory.py:133-138 | `forget` changes no other key and adds or deletes no key |
| Memory.ForgetRemovesOne | tutor_agent/tools/memory.py:135-138 | on a list, `forget` removes the first occurrence of a present value, keeping the rest in order, and leaves the state alone for an absent one |
| Memory.ForgetUndoesMemorizeList | tutor_agent/tools/memory.py:85-138 | `forget` after `memorize_list` of a value the list did not hold restores the state |
| Memory.InitialTime | tutor_agent/tools/memory.py:150-151 | `_time` is always present afterwards, written with the current time only when missing; an existing `_time` makes the clock irrelevant |
| Memory.InitialisedOnce | tutor_agent/tools/memory.py:153 | an already initialised state gains at most `_time` |
| Memory.InitialStepIdempotent | tutor_agent/tools/memory.py:150-160 | the first call marks the state initialised even when it raises, so a second call changes nothing |
| Memory.InitialCopiesSource | tutor_agent/tools/memory.py:153-155 | the first call marks the state initialised, unless the source carries its own `_session_initialized`, which then wins. It copies every source entry, except for the two session times a truthy session overrides. With no truthy session, every entry is copied |
| Memory.InitialSessionTimes | tutor_agent/tools/memory.py:157-160 | a truthy session succeeds exactly when it is a dictionary with both times, and then sets both. A non-dictionary raises `TypeError`. A missing start raises `KeyError` before anything is overridden. A missing end raises after the start time is written |

## Left out

- Console output (`print`) in every tool is not modelled.
- `Calculator.Evaluate`: floating point is modelled as exact real arithmetic. Rounding, infinities and NaN are not modelled.
- `Calculator.Evaluate`: `float(...)` parsing is modelled as a `Token` that either denotes a real or is malformed. The string grammar `float` accepts is not modelled.
- `Calculator.Evaluate`: exponentiation `**` is a parameter `pow`, because real powers are not expressible here. For the same reason, a negative base with a fractional exponent (a complex result in Python) is not modelled.
- `Calculator.Evaluate`: `numbers[0] ** numbers[1]` at calculator.py:106 is outside the `try`, so zero to a negative power (`ZeroDivisionError`) and an overflowing result (`OverflowError`) raise out of `cal`. The model answers `Value(pow(x, y))` for every pair and does not model these exceptions.
- `Physics.SnellsLaw`: `math.sin` of an angle in degrees and `math.asin` in degrees are parameters (`Trig`). The example lemma assumes only that sin 60° > 2/3.
- `Physics.CoulombsLaw`: does not state that the force magnitude is non-negative when k ≥ 0. That needs a sign fact about real division by r², which is non-linear arithmetic the verifier does not prove here. `CoulombsLawSolves` states the exact relation F·r² = k·\|q1·q2\| instead.
- `Physics.Compute`: the summaries in the unknown-law answer are a map, so the order of their keys is not modelled. In the source the dictionary keeps table order (formula.py:660-665). The list of law names in the message does keep table order.
- `Physics.SnellsLaw`: the unused `theta2`/`angle2` lookup is not modelled, because it has no effect.
- `Physics.PhysicsCalc`: `kwargs` values are numbers or `None`. A string, or another type passed as a parameter, is not modelled, nor is any other exception caught at `formula.py:667-669`.
- `Physics.PhysicsCalc`: the explanation strings of the results are not modelled. The resolved quantity, units, formula and law context are.
- `Constants.Lookup`: the constant values are exact decimals, not IEEE doubles.
- `Constants.Lookup`: the category error's `available_categories` is the set of categories, because `list(set(...))` has no defined order.
- `Constants.Lookup`: the overview's `categories` is a map, so the order of its keys is not modelled. In the source the dictionary keeps the categories in the order they first appear in the table (formula.py:230-240). The lists under each key do keep table order.
- `Text.Lower`: only ASCII letters are lower-cased. Python's Unicode case mapping is not modelled.
- `Memory.SessionState`: the ADK `State` object is modelled as a plain dictionary with Python's `dict.update` semantics. Its delta tracking and persistence are not modelled.
- `Memory.SessionState`: lists in the state are values, not shared objects, so aliasing of a list stored under two keys is not modelled.
- `Memory.SessionState.SetInitialStates`: the clock `datetime.now()` is the parameter `now`.
- `_load_precreated_itinerary` in `memory.py` reads a JSON file from disk. File I/O is not part of this model; its effect is `SetInitialStates` applied to the file's `state` entry.
- The agent definitions and prompt strings in the same files are configuration, not behaviour, and are not modelled.
