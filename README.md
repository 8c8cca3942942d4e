# MethodOverrider, modelled in Dafny

`MethodOverrider` takes a class name, one or more method names of that
class, and the same number of callables. It produces a subclass in which
each named method is overridden. The override builds a closure
`$original` that calls the parent method with the received arguments. It
then calls the callable at the method's position with `$original` and the
same arguments. `override` evaluates the subclass at once and returns the
object, or `false` when the input is rejected. `generateOverriddenClass`
returns the PHP source of a named subclass `<ShortName>CacheProxy`, the
callables, and the class name. It raises `InvalidArgumentException` when the
input is rejected.

This project models that code as data in, text out:

- `wrappers.dfy` (`Wrappers`): `Option` and `Result`.
- `php_text.dfy` (`PhpText`): PHP string truthiness, `implode`, decimal
  rendering of integers, and cutting helpers for the readers below.
- `var_export.dfy` (`VarExport`): scalar default values (`null`, booleans,
  64-bit integers, strings), the literal text `var_export` writes for them,
  and a reader of that text.
- `signature.dfy` (`Signature`): reflected parameters and methods,
  `buildParameterList`, `buildParameterNames` and the return-type text.
  Readers of that text state what PHP declares when it parses the
  generated signature.
- `method_overrider.dfy` (`MethodOverrider`): the class table that stands
  for reflection, the three checks, `allMethodsExist` (a loop),
  `buildMethodDefinitions` (a loop), the proxy class name, a reader for one
  generated method definition, and `override` and
  `generateOverriddenClass` as methods.

Reflection is input data. A `ClassTable` maps each loaded class to every
method it has, declared or inherited, with the method's `MethodSpec`. A
`MethodSpec` holds the method's name, its ordered `ParamSpec`s and the
optional name of its return type. A `ParamSpec` holds the parameter's name,
the optional name of its type, `isOptional` and the default value when one
is available. `eval` is not modelled, so `Override` returns the string
that `override` hands to `eval`, with one deliberate difference: string
defaults are written as intended and not re-quoted as the PHP code does (see
"## Findings"). Callables are opaque: the model only counts them and passes
them through. Whether an argument is one value (`One`) or a list (`Many`) is
decided as `is_array` decides it.

Most contracts are stated through readers that work backwards from the
generated text. `ParseDefinition` reads one generated method definition
back: its name, the parameters its list declares, the return type, what the
closure captures, which parent method it calls with which arguments, which
implementation slot it calls, and which arguments follow `$original`. The
main lemmas prove that reading back what was written gives the reflected
method: the same parameters in the same order with the same names, types
and defaults, and implementation slot i for the method at position i.

## Model

| member | source | states |
|---|---|---|
| `MethodOverrider.Normalize` | src/MethodOverrider.php:22-23 | A non-array argument (`One`) becomes a one-element list; an array (`Many`) passes through unchanged (also lines 164-165). |
| `MethodOverrider.ArrayCallableMiscounted` | src/MethodOverrider.php:22-33 | Because `is_array` decides, a single callable in array form (`[$object, 'method']`) counts as two implementations, so one method with such a callable fails the count check. |
| `MethodOverrider.Validate` | src/MethodOverrider.php:25-35 | The checks are fail-fast and run in a fixed order. An unknown class is reported whatever else is wrong. A missing method is reported only when the class exists. A count mismatch is reported only when the class and every method exist. Validation passes exactly when all three hold. |
| `MethodOverrider.AllMethodsExist` | src/MethodOverrider.php:58-67 | True iff every listed name is a method of the class, so true for an empty list. The scan stops at the first missing name: every earlier name exists and the name where it stopped does not. |
| `MethodOverrider.Override` | src/MethodOverrider.php:15-53 | Returns `false` exactly when one of the three checks fails. Otherwise it returns the anonymous class `extends \<class>` whose body is the text `buildMethodDefinitions` produces, wrapped as `return …;` for `eval`. |
| `MethodOverrider.GenerateOverriddenClass` | src/MethodOverrider.php:158-201 | Fails exactly when a check fails, with the message of the first failing check: 'Class does not exist', 'Method does not exist' or 'Number of methods and implementations must match'. On success it returns the named class source built from the same definitions text as `Override`, the normalised implementations unchanged, and the proxy class name. |
| `MethodOverrider.ProxyClassName` | src/MethodOverrider.php:179 | The generated class name contains neither `\` nor `/` and always ends in `CacheProxy`. |
| `MethodOverrider.QualifiedProxyName` | src/MethodOverrider.php:179 | For `Ns\Short`, where `Short` is non-empty and has no separators, the name is `ShortCacheProxy`. |
| `MethodOverrider.UnqualifiedProxyName` | src/MethodOverrider.php:179 | A class name without separators gets `CacheProxy` appended unchanged. |
| `MethodOverrider.UseClause` | src/MethodOverrider.php:82 | The `use (...)` clause is empty iff the method has no parameters. |
| `MethodOverrider.ForwardedArgs` | src/MethodOverrider.php:83 | The arguments added after `$original` are empty iff the method has no parameters. |
| `MethodOverrider.BuildMethodDefinitions` | src/MethodOverrider.php:72-98 | The loop collects, in request order, the definition of the method at each position with that position as its slot. It joins them with the separator `"\n\n        "`. |
| `MethodOverrider.DefinitionRoundTrip` | src/MethodOverrider.php:85-94 | Reading a generated definition back gives the requested method name, the reflected parameters and return type, a closure that captures every parameter, a parent call to the same method with the parameters in order, a call to implementation slot `index`, and the parameters in order after `$original`. |
| `MethodOverrider.DefinitionsRealizeRequest` | src/MethodOverrider.php:76-95 | There is exactly one definition per requested method. The i-th overrides method i and calls `implementations[i]`, so binding is by position and not by name. |
| `MethodOverrider.ReturnTypeRoundTrip` | src/MethodOverrider.php:100-106 | The return-type text is `': T'` when the type name is truthy and empty otherwise, and it reads back as that type. |
| `MethodOverrider.HeaderRoundTrip` | src/MethodOverrider.php:86 | The header line reads back as the method name, the declared parameters in order, and the return type. |
| `Signature.ReturnTypeDecl` | src/MethodOverrider.php:100-106 | The return-type text is empty exactly when the method declares no (truthy) return type. |
| `Signature.BuildParameterNames` | src/MethodOverrider.php:149-156 | Yields `''` iff there are no parameters. Otherwise the text starts with `$`, so it is never `'0'` and the source's `!== '0'` guard never decides anything. |
| `Signature.ParameterNamesRoundTrip` | src/MethodOverrider.php:149-156 | The names list reads back as exactly the parameters' names, in declaration order. |
| `Signature.ParameterListRoundTrip` | src/MethodOverrider.php:119-144 | The parameter list has one entry per parameter, in order. Each entry declares that parameter's type, name and default: the declared default if there is one, `null` if the parameter is only optional, none if it is required. |
| `Signature.ParseRenderParam` | src/MethodOverrider.php:125-143 | One entry is `T $name` when the type is truthy, else `$name`. It is followed by `' = '` and the default's literal, or `' = null'` for an optional parameter, or nothing. It reads back as the parameter's meaning. |
| `Signature.RenderDefault` | src/MethodOverrider.php:134-137 | The default's literal reads back as exactly the declared default value. |
| `Signature.StringDefaultRequoted` | src/MethodOverrider.php:136-137 | As written, a string default `s` is emitted as a literal whose value is `'s'`, with the quotes included, and this differs from the intended literal. |
| `Signature.NonStringDefaultUnaffected` | src/MethodOverrider.php:134-137 | The as-written and the intended default text coincide exactly for defaults that are not strings. |
| `Signature.StringDefaultExample` | src/MethodOverrider.php:136-137 | As written, the default `'abc'` is emitted as `'\'abc\''`; the intended text is `'abc'`. |
| `VarExport.ExportRoundTrip` | src/MethodOverrider.php:137 | `var_export` of a null, boolean, 64-bit integer or string default reads back as that same value. |
| `VarExport.IntLiteralRoundTrip` | src/MethodOverrider.php:137 | Every 64-bit integer literal reads back as itself, including the most negative one, which is written `-9223372036854775807-1`. |
| `VarExport.UnescapeEscape` | src/MethodOverrider.php:137 | Escaping a string for a single-quoted literal (`\'`, `\\`, NUL written as `' . "\0" . '`) is undone by reading the literal back. |
| `PhpText.NatDecimalRoundTrip` | src/MethodOverrider.php:92 | The slot index interpolated into `$this->implementations[...]` reads back as that index, so distinct positions give distinct slots. |

## Left out

- `eval` and instantiating the anonymous class (line 52) are not modelled: `Override` returns the code text instead. What the generated class does at run time is not modelled either, including which value the callable returns.
- The file write, `require` and `unlink` of the generated source belong to callers. They are not part of the model.
- Reflection is taken as data. The model does not capture the following:
  - PHP's case-insensitive lookup of class and method names (the table's keys are the canonical names);
  - autoloading triggered by `class_exists`;
  - accessibility of methods.
- Nullable markers, union and intersection types, variadic and by-reference parameters are not modelled. A type is only the name `getName()` returns. The model therefore also does not capture that a `?T` parameter is re-declared as `T`.
- `var_export` of floats, arrays, objects and enums is not modelled. A default given as a constant expression is represented by its evaluated value.
- PHP arrays with non-list keys are not modelled: method names and callables are sequences. With such arrays the source uses the array key as the slot and not the position.
- MethodOverrider.Override: the code it returns writes string defaults with `Signature.RenderDefault`, so for a method with a string default it differs from the code the PHP source evaluates (lines 136-137, see "## Findings"); for every other default it is the same text (`Signature.NonStringDefaultUnaffected`).
- MethodOverrider.GenerateOverriddenClass: its `content` writes string defaults with `Signature.RenderDefault`, so for a method with a string default it differs from the text the PHP source returns (lines 136-137); for every other default it is the same text.
- MethodOverrider.BuildMethodDefinitions: the definitions text writes string defaults with `Signature.RenderDefault`, so for a method with a string default it differs from what lines 72-98 produce (lines 136-137); for every other default it is the same text.
- Callables in array form (`[$object, 'method']`, `['Class', 'method']`) are not distinguished from lists of callables, exactly as `is_array` does not distinguish them; the consequence is stated by `MethodOverrider.ArrayCallableMiscounted`. Which PHP values are callable is not modelled.
- The unused `$returnNewClassString` parameter (line 19) has no effect and is not modelled.
- `basename` is modelled on `/` only: the locale-dependent multibyte handling is not modelled.
- MethodOverrider.DefinitionRoundTrip: stated only for well-formed reflection data (identifier names; type names of identifier characters and `\`), which is what reflection of real PHP code gives.
- MethodOverrider.DefinitionsRealizeRequest: stated only for well-formed reflection data (identifier names; type names of identifier characters and `\`), which is what reflection of real PHP code gives.
- MethodOverrider.HeaderRoundTrip: stated only for well-formed reflection data (identifier names; type names of identifier characters and `\`), which is what reflection of real PHP code gives.
- Signature.ParameterListRoundTrip: stated only for well-formed reflection data (identifier names; type names of identifier characters and `\`), which is what reflection of real PHP code gives.
- Signature.ParameterNamesRoundTrip: stated only for well-formed reflection data (identifier names; type names of identifier characters and `\`), which is what reflection of real PHP code gives.
- Signature.ParseRenderParam: stated only for well-formed reflection data (identifier names; type names of identifier characters and `\`), which is what reflection of real PHP code gives.
- The readers (`ParseDefinition`, `ParseParameterList`, `ParseParameterNames`, `Decode`) accept only the text forms the generator writes. They are not a PHP parser.

## Findings

| source | as written | input that shows it | evidently intended | confidence | as-written member | corrected member |
|---|---|---|---|---|---|---|
| src/MethodOverrider.php:136-137 | A string default is first wrapped in quotes (`"'$default'"`) and then passed to `var_export`, which quotes and escapes it again. | A parameter `string $s = 'abc'` is re-declared as `string $s = '\'abc\''`. Called without that argument, the override passes `"'abc'"` to the parent instead of `"abc"`. | `var_export($default, true)`, which writes `'abc'` so that the default is unchanged. | high (not executed) | `Signature.StringDefaultRequoted` | `Signature.RenderDefault` |

The rest of the model (`RenderParam`, `BuildParameterList` and everything
built on them) uses the corrected rendering `Signature.RenderDefault`.
`Signature.RenderDefaultAsWritten` keeps the rendering as written.
