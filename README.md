# aws-vapor core, modelled in Dafny

This project models two parts of the aws-vapor CloudFormation tooling.

**Placeholder injection** (`aws_vapor/utils.py`, module `VaporUtils` in
`vapor_utils.dfy`). `inject_params` splits a text at `'\n'` and gives every line
its `'\n'` back. `_replace_params` then cuts each line at exact
`{{ name }}` placeholders, and the parameter's value takes the placeholder's place.
The result is a flat list of literal strings and values. The model
tags the two kinds (`Token.Literal` / `Token.Value`) so that the value type stays
generic. Parameters are a sequence of `(name, value)` pairs in the dictionary's
iteration order. The same module models the lookup of
`get_property_from_config_file` over an already loaded section/key/value map.
The module `VaporUtilsExamples` (`vapor_utils_examples.dfy`) proves the literal
cases of `tests/test_utils.py` about this model.

**The template builder** (`cfngen/dsl.py`, module `CfnGenDsl` in
`cfngen_dsl.dfy`). `Element` and `Template` are classes whose lists and
dictionaries are `seq`/`map` fields reassigned by their methods. Elements stay
objects, so an element extended after it was added to a template is rendered
with its new properties. `ToTemplate` renders the template into a `map` of
header strings and section dictionaries. The specification of every method is a
function on the objects' state (`Properties`, `SectionDict`, `Document`). Lemmas
about those functions state what the rendering means: the last write wins, a
later element with the same name replaces an earlier one whole, and an element
that was added is rendered under its name.

Substitution does not cut at the leftmost placeholder of a line. It takes the
first parameter, in parameter order, whose placeholder occurs anywhere in the
line, and cuts at that placeholder's first occurrence
(`aws_vapor/utils.py:131-137`). `FirstMatch` and `CutAt` model exactly this.

## Model

| member | source | states |
|---|---|---|
| VaporUtils.FindFrom | aws_vapor/utils.py:133 | the result is -1 when `pat` occurs nowhere from `from` on, otherwise an index from `from` on where `pat` occurs with no earlier occurrence from `from` |
| VaporUtils.Find | aws_vapor/utils.py:133-134 | `str.find`/`str.index`: -1 exactly when the pattern does not occur, otherwise the index of its first occurrence |
| VaporUtils.FirstMatchFrom | aws_vapor/utils.py:131-133 | the first parameter position from `j` whose placeholder occurs in the line; `None` exactly when none of them occurs |
| VaporUtils.FirstMatch | aws_vapor/utils.py:131-133 | the parameters are scanned in order and the first whose `{{ name }}` occurs is chosen; `None` exactly when the line holds no placeholder of any parameter |
| VaporUtils.Placeholder | aws_vapor/utils.py:132 | `'{{ %s }}' % k`: two braces and one space, the name, one space and two braces; six characters longer than the name |
| VaporUtils.ReplaceParams | aws_vapor/utils.py:130-138 | `_replace_params`; it carries no contract of its own, and its meaning is stated by `ReplaceParamsShape`, `ReplaceParamsRestores`, `ReplaceParamsSize` and `UntouchedLine` |
| VaporUtils.CutAt | aws_vapor/utils.py:132-136 | the text before and after the first occurrence of the chosen placeholder (it occurs at no earlier index than the left part's length); both parts are strictly shorter than the line, and left + placeholder + right is the line |
| VaporUtils.ReplaceParamsShape | aws_vapor/utils.py:130-138 | the tokens of a line alternate literal, value, …, literal, and no literal token holds a placeholder of any parameter; substituted values are not rescanned |
| VaporUtils.ReplaceParamsRestores | aws_vapor/utils.py:130-138 | putting the matched placeholders back in place of the value tokens and concatenating gives the original line; the j-th value is the value of the j-th matched name |
| VaporUtils.ReplaceParamsSize | aws_vapor/utils.py:134-137 | a line with n substitutions yields 2·n+1 tokens |
| VaporUtils.UntouchedLine | aws_vapor/utils.py:131-138 | a line holding no placeholder of any parameter comes back as exactly `[line]` |
| VaporUtils.SplitLines | aws_vapor/utils.py:153 | `str.split('\n')`: at least one piece, no piece holds `'\n'`, and joining the pieces with `'\n'` gives the text back |
| VaporUtils.SplitJoin | aws_vapor/utils.py:153 | splitting a `'\n'`-join of newline-free lines gives the same lines |
| VaporUtils.LastLineAfterNewline | aws_vapor/utils.py:153 | a text ending in `'\n'` splits into pieces whose last one is empty |
| VaporUtils.InjectParams | aws_vapor/utils.py:152-157 | `inject_params`: the result is the in-order concatenation of the tokens of every split line with `'\n'` appended |
| VaporUtils.AppendAll | aws_vapor/utils.py:155-156 | the inner loop appends all tokens of one line, in order, after the tokens so far |
| VaporUtils.InjectedStep | aws_vapor/utils.py:153-156 | one outer loop step adds exactly the tokens of the next line with its `'\n'` |
| VaporUtils.InjectedRestores | aws_vapor/utils.py:152-157 | restoring the placeholders in the tokens of several lines gives each line followed by `'\n'`; every value is the value of its matched name |
| VaporUtils.InjectParamsRestores | aws_vapor/utils.py:152-157 | restoring the placeholders in the output of `inject_params` gives the input text plus one final `'\n'` |
| VaporUtils.InjectedWithoutParams | aws_vapor/utils.py:152-157 | with no parameters, each line yields exactly one literal, the line with `'\n'` |
| VaporUtils.InjectParamsWithoutParams | aws_vapor/utils.py:152-157 | with no parameters, the output is the split lines, each with `'\n'`; it holds no value and concatenates to the input plus `'\n'` |
| VaporUtils.InjectedLiteralsFree | aws_vapor/utils.py:152-157 | no literal token of the output of `inject_params` holds a placeholder of any parameter |
| VaporUtils.TrailingNewlineToken | aws_vapor/utils.py:153-156 | a text ending in `'\n'` yields a final lone `"\n"` literal token |
| VaporUtils.EmptyLastLine | aws_vapor/utils.py:154-156 | an empty last line contributes the final token `"\n"` |
| VaporUtils.NewlineOnly | aws_vapor/utils.py:131-138 | a lone `"\n"` is shorter than any placeholder and stays one literal |
| VaporUtils.GetProperty | aws_vapor/utils.py:67-79 | the stored value when the section and the key exist and the value is not None; the default in every other case |
| VaporUtils.SetProperty | aws_vapor/utils.py:46-48 | storing one loaded value creates the section if missing, sets the key, and leaves other sections as they were |
| VaporUtils.GetPropertyAfterSet | aws_vapor/utils.py:46-48 | after a value is stored, looking it up returns it, or the default when it is None; every other lookup is unchanged |
| VaporUtilsExamples.OnePlaceholderLine | tests/test_utils.py:17-21 | the line `__{{ fghij }}__\n` becomes `__`, the value, `__\n` |
| VaporUtilsExamples.AllPlaceholdersReplaced | tests/test_utils.py:17-21 | the six tokens of the all-placeholders-replaced case, ending in the lone `"\n"` |
| VaporUtilsExamples.NoParametersPassed | tests/test_utils.py:24-28 | with no parameters, the placeholder line is kept verbatim as one literal |
| VaporUtilsExamples.Malformed | tests/test_utils.py:31-63 | a middle line that cannot hold the exact placeholder is kept as one literal |
| VaporUtilsExamples.NoSpaceOnTheLeftSide | tests/test_utils.py:31-35 | `{{fghij }}` is not a placeholder |
| VaporUtilsExamples.NoSpaceOnTheRightSide | tests/test_utils.py:38-42 | `{{ fghij}}` is not a placeholder |
| VaporUtilsExamples.NoSpacesOnTheBothSides | tests/test_utils.py:45-49 | `{{fghij}}` is not a placeholder |
| VaporUtilsExamples.SpaceBetweenLeftBraces | tests/test_utils.py:52-56 | `{ { fghij }}` is not a placeholder |
| VaporUtilsExamples.SpaceBetweenRightBraces | tests/test_utils.py:59-63 | `{{ fghij } }` is not a placeholder |
| VaporUtilsExamples.TwoPlaceholdersLine | tests/test_utils.py:66-70 | both placeholders of one line are replaced, giving literal, value, literal, value, literal |
| VaporUtilsExamples.MultiPlaceholdersInOneLine | tests/test_utils.py:66-70 | a text without `'\n'` yields the five tokens of the multi-placeholder case |
| CfnGenDsl.LastWins | cfngen/dsl.py:62-64 | the dictionary filled from a list of pairs has exactly the keys of the pairs |
| CfnGenDsl.LastWinsAt | cfngen/dsl.py:63-64 | a key maps to the value of its last occurrence |
| CfnGenDsl.LastWinsOther | cfngen/dsl.py:63-64 | pairs appended for other keys leave a key's entry as it was |
| CfnGenDsl.Element.constructor | cfngen/dsl.py:53-55 | a new element has the given name and no properties |
| CfnGenDsl.Element.AddProperty | cfngen/dsl.py:57-59 | appends `(name, value)` at the end, keeps duplicates and the earlier pairs, and returns the element itself |
| CfnGenDsl.Element.ToTemplate | cfngen/dsl.py:61-64 | sets the element's name in the given dictionary to its property dictionary (`Properties`, whose meaning is `LastWins`) and touches no other key |
| CfnGenDsl.SectionDict | cfngen/dsl.py:44-46 | a section's dictionary has exactly the names of its elements as keys |
| CfnGenDsl.SectionDictAt | cfngen/dsl.py:44-46 | a name maps to the whole property dictionary of the last element with that name; earlier ones are not merged in |
| CfnGenDsl.SectionDictSnoc | cfngen/dsl.py:45-46 | appending an element renders it under its name and leaves the other names as they were |
| CfnGenDsl.RenderSection | cfngen/dsl.py:44-46 | the inner loop of `to_template` produces the section's dictionary |
| CfnGenDsl.RenderSections | cfngen/dsl.py:43-46 | the outer loop, in whatever order it visits the sections, renders every section to its dictionary |
| CfnGenDsl.Appended | cfngen/dsl.py:19-37 | appending to a section adds that section if missing, puts the element last in it, and leaves the other sections unchanged |
| CfnGenDsl.AppendedRendersElement | cfngen/dsl.py:19-37 | an element added to a section is rendered in that section under its name with its whole properties |
| CfnGenDsl.WithSectionIdempotent | cfngen/dsl.py:14-17 | `get_section` twice has the effect of once; it only adds the name and leaves existing sections alone |
| CfnGenDsl.Template.constructor | cfngen/dsl.py:6-9 | version and description as given (`2010-09-09` and `''` by default) and no sections |
| CfnGenDsl.Template.Document | cfngen/dsl.py:39-48 | the output has the two header keys plus exactly one key per section; each section is its dictionary; the header keys hold version and description unless a section bears their name |
| CfnGenDsl.Template.GetSection | cfngen/dsl.py:14-17 | creates an empty section only when it is absent, returns the section's list, and changes nothing when it exists |
| CfnGenDsl.Template.AddParameter | cfngen/dsl.py:19-22 | appends the element to `Parameters`, leaves other sections, version and description unchanged, and returns the template itself |
| CfnGenDsl.Template.AddMappings | cfngen/dsl.py:24-27 | the same for `Mappings` |
| CfnGenDsl.Template.AddResources | cfngen/dsl.py:29-32 | the same for `Resources` |
| CfnGenDsl.Template.AddOutputs | cfngen/dsl.py:34-37 | the same for `Outputs` |
| CfnGenDsl.Template.ToTemplate | cfngen/dsl.py:39-48 | the rendered dictionary is `Document()`; it modifies nothing, so calls without mutation in between agree |
| CfnGenDsl.SampleKeyName | cfngen/dsl.py:70-72 | the `KeyName` element of the sample with its two properties |
| CfnGenDsl.SampleInstanceType | cfngen/dsl.py:74-77 | the `InstanceType` element of the sample with its three properties |
| CfnGenDsl.SampleParameters | cfngen/dsl.py:68-77 | the sample's `Parameters` section renders to the two expected property dictionaries |
| CfnGenDsl.SampleDocument | cfngen/dsl.py:68-80 | the sample template renders to the header plus that `Parameters` section |
| CfnGenDsl.SampleTemplate | cfngen/dsl.py:67-80 | building and rendering the sample gives exactly that dictionary |

## Left out

- Config-file persistence: `load_from_config_file` and `save_to_config_file` read and write files through configparser. `GetProperty` takes the loaded map as a parameter. `SetProperty` models only the single assignment in the loading loop.
- `combine_user_data` builds a MIME message from files, and `open_outputfile` creates directories and opens files. Both are only I/O.
- The generator, the downloader, the command-line front ends and the example scripts are outside the core. The `aws_vapor.dsl` package they use is not part of this model.
- The no-op `__getattr` of `Template` has no effect and is not modelled.
- Dictionary key order and `pprint` output: outputs are Dafny `map`s, so no section or key order is promised. `SampleTemplate` returns the dictionary rather than printing it.
- Python values are untagged: a string value and a literal string look alike in the source's output list. The model keeps them apart with `Token`.
- Parameters are a sequence in the dictionary's iteration order. With several parameters, the order in which placeholders are cut follows that order.
- The dictionary handed to `Element.to_template` is filled in place in the source. The model passes it in as a value and returns the updated one.
- `Template.GetSection` returns the section's list as a value. In the source it is the list object stored in the template, so a caller appending to it later would change the template. The `add_*` methods append through that alias, and the model writes the extended list back into `elements`, which has the same effect.
- `has_key` (Python 2) is modelled as map membership.
- CfnGenDsl.Element.ToTemplate: its contract states the map update through `Properties()`. That the keys are exactly the property names and that the last occurrence wins is stated by `LastWins` and `LastWinsAt`.
