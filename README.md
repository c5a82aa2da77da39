# The guiceymongo schema compiler (TypeParser), modelled in Dafny

The schema compiler turns the parsed tree of a schema file into populated
type objects held in a type registry. It works in two passes over the tree:

1. **Registration** (`registerAllUserTypes`) walks the whole tree depth first.
   - Every `DATA` and `ENUM` declaration gets an empty shell named by its first child.
   - The shell is listed under its enclosing data type and registered under its qualified name: the parent's qualified name, a dot and its own name.
   - An error at one node only skips that node's own subtree.
2. **Population** (`parse` over the root's direct children, then `parseDataTree`, `parseEnumTree` and `parsePropertyTree`) fetches each shell by qualified name and decorates it.
   - Properties get a type resolved from a flattened token list (`parseType`), trailing options (`parseOptionTree`, `parseLiteral`) and comments (`parseCommentTree`).
   - Enum types get their values.
   - Data and enum types get their comments.
   - An identity option designates the owner's identity property.

The project has two layers.

**Specification functions on values.** Each routine is written as a function
on values, with lemmas on those functions:

- `Literals`: parseLiteral
- `Options`: parseOptionTree
- `Comments`: parseCommentTree
- `TypeExpressions`: parseType
- `Population`: pass 2
- `Registration`: pass 1
- `Compilation`: the whole parse

**The `Parser.TypeParser` class.** It holds the registry as a mutable field `registry: map<string, Decl>`.
- Its methods walk the tree with the same loops as the source.
- Each method is proved to leave exactly the registry, and return exactly the error, that the specification function describes.
- `parseType`'s destructive `remove(0)` on a shared list becomes a cursor threaded through `TypeExpressions.ParseType`.

Modelling decisions:

- **The tree.** It is a datatype `Node(kind, text, children)`.
  - `NoToken` is ANTLR's nil node, whose token is null. Every place that dereferences its token type fails with `NullReference`.
  - An empty `children` sequence stands for ANTLR's null child list. The loops of the comment, option, property, data, enum and top-level routines fail with `NullReference` on it.
- **User types.** They are registry entries `Decl = Builtin | DataType | EnumType`, addressed by qualified name.
  - A property's owner and a type's parent are qualified names.
  - The identity property is the position of that property in its owner's property sequence.
- **The registry's exact lookup.**
  - A miss is `TypeLookupMiss`.
  - An entry of the other kind is `WrongTypeKind`, for the failing cast at TypeParser.java lines 173 and 197.
  - `addType` on a name already present fails with `DuplicateType`.
- **The registry's scoped lookup** (`getScopedGuiceyType`). It is an uninterpreted function value `(registry, scope, name) -> Option<Type>`, supplied to the constructor.
- **Integers.** `Integer.parseInt` is modelled as an optional sign and ASCII decimal digits within the 32-bit range.
- **Floats.** `Float.parseFloat` is modelled as the decimal float syntax:
  - surrounding blanks trimmed;
  - an optional sign and digits with a point;
  - an optional exponent and an optional `f`/`F`/`d`/`D` suffix.
- **Errors.** Exceptions are values of `Errors.Error`.
  - Partial pass-2 work stays in the registry, as it does in the source.
  - Pass 1's per-node catch is the fold over children that continues after a failed child.

- **Comments on a property.** Every comment child after the type expression replaces the property's comment (TypeParser.java lines 131-133), so the last one wins.

## Model

| member | source | states |
|---|---|---|
| Literals.ParseInt | src/main/java/com/mattinsler/guiceymongo/data/generator/parser/TypeParser.java:64 | a parsed integer lies in the 32-bit range, and its text is non-empty and has no decimal point |
| Literals.TrimEnd | src/main/java/com/mattinsler/guiceymongo/data/generator/parser/TypeParser.java:63 | trailing blanks removed: a prefix of the text that does not end in a blank, followed only by blanks |
| Literals.LeadingBlanks | src/main/java/com/mattinsler/guiceymongo/data/generator/parser/TypeParser.java:63 | the number of blanks the text starts with: all of them blanks, and the next character is not one |
| Literals.Trim | src/main/java/com/mattinsler/guiceymongo/data/generator/parser/TypeParser.java:63 | String.trim as parseFloat applies it: what is left starts right after the leading blanks, has no blank at either end, and only blanks follow it |
| Literals.ParseLiteral | src/main/java/com/mattinsler/guiceymongo/data/generator/parser/TypeParser.java:57-68 | the quote test comes first, then the decimal-point test, then the integer parse; every failure is "could not parse literal" for this text; a string literal is the text with its enclosing quotes removed; a float is taken only for unquoted text containing a point; an integer only for unquoted text without one, within 32 bits |
| Literals.NatDigitsValue | src/main/java/com/mattinsler/guiceymongo/data/generator/parser/TypeParser.java:64 | the decimal digits of a natural number are non-empty digits whose value is that number |
| Literals.IntRoundTrip | src/main/java/com/mattinsler/guiceymongo/data/generator/parser/TypeParser.java:64 | every 32-bit integer printed in decimal parses back to itself |
| Literals.IntLiteralRoundTrip | src/main/java/com/mattinsler/guiceymongo/data/generator/parser/TypeParser.java:62-64 | every 32-bit integer's decimal text is classified as that integer literal |
| Literals.QuotedRoundTrip | src/main/java/com/mattinsler/guiceymongo/data/generator/parser/TypeParser.java:60-61 | any text between single quotes is a string literal of exactly that text: no escape processing |
| Literals.LoneQuoteFails | src/main/java/com/mattinsler/guiceymongo/data/generator/parser/TypeParser.java:59-66 | a lone quote passes the quote test but fails with the literal error |
| Literals.DottedTextIsFloat | src/main/java/com/mattinsler/guiceymongo/data/generator/parser/TypeParser.java:62-63 | unquoted text with a point succeeds exactly when it has the decimal float form, and then is a float literal, never an integer |
| Literals.SampleQuotedLiteral | src/main/java/com/mattinsler/guiceymongo/data/generator/parser/TypeParser.java:60-61 | 'abc' is the string abc |
| Literals.SampleIntLiteral | src/main/java/com/mattinsler/guiceymongo/data/generator/parser/TypeParser.java:64 | 3 is the integer 3 |
| Literals.SampleFloatLiteral | src/main/java/com/mattinsler/guiceymongo/data/generator/parser/TypeParser.java:62-63 | 3.5 takes the float branch |
| Literals.SampleBadLiteral | src/main/java/com/mattinsler/guiceymongo/data/generator/parser/TypeParser.java:64-66 | abc fails |
| Options.OptionOf | src/main/java/com/mattinsler/guiceymongo/data/generator/parser/TypeParser.java:70-84 | a parsed option's name is the first child's text |
| Options.LastPair | src/main/java/com/mattinsler/guiceymongo/data/generator/parser/TypeParser.java:78-81 | the last named pair with a given name exists exactly when some named pair carries that name |
| Options.LastPairIsLast | src/main/java/com/mattinsler/guiceymongo/data/generator/parser/TypeParser.java:78-81 | the pair found sits at some index, and no named pair after it carries the same name, so its value is the one the map keeps |
| Options.NamedParametersContent | src/main/java/com/mattinsler/guiceymongo/data/generator/parser/TypeParser.java:78-81 | a parameter name is present exactly when it was there before or some named pair carries it; its value is the literal of the last such pair; other names keep their values |
| Options.PositionalOption | src/main/java/com/mattinsler/guiceymongo/data/generator/parser/TypeParser.java:75-76 | two children with a non-PAIR second child give exactly one parameter, "value", holding the second child's literal; the option fails exactly when that literal fails |
| Options.NamedOption | src/main/java/com/mattinsler/guiceymongo/data/generator/parser/TypeParser.java:77-82 | otherwise the option is read exactly when no child after the name is nil and every PAIR child with two children has a literal that parses; then a parameter name is present exactly when some such pair carries it, and its value is the last such pair's literal; all other children are ignored and cannot make it fail |
| Options.NamedParametersOk | src/main/java/com/mattinsler/guiceymongo/data/generator/parser/TypeParser.java:78-81 | the named-parameter loop fails exactly at a nil child or at a named pair whose literal fails |
| Options.ParseOptionTree | src/main/java/com/mattinsler/guiceymongo/data/generator/parser/TypeParser.java:70-84 | the indexed loop computes exactly the option the node denotes, or its error |
| Comments.CommentTextAppend | src/main/java/com/mattinsler/guiceymongo/data/generator/parser/TypeParser.java:91-93 | the comment of concatenated children is the concatenation of their comments |
| Comments.CommentLength | src/main/java/com/mattinsler/guiceymongo/data/generator/parser/TypeParser.java:90-94 | the comment's length is the sum over the children of their text length plus one |
| Comments.CommentTextAt | src/main/java/com/mattinsler/guiceymongo/data/generator/parser/TypeParser.java:91-94 | each child's text, followed by a space, appears in order at the offset the earlier children's lengths give |
| Comments.ParseCommentTree | src/main/java/com/mattinsler/guiceymongo/data/generator/parser/TypeParser.java:86-95 | the StringBuilder loop yields exactly the in-order comment text; no children raises a null reference |
| TypeExpressions.DecodeType | src/main/java/com/mattinsler/guiceymongo/data/generator/parser/TypeParser.java:97-115 | a successful decoding consumes at least one token |
| TypeExpressions.DecodeTypeErrors | src/main/java/com/mattinsler/guiceymongo/data/generator/parser/TypeParser.java:98-114 | decoding fails with an index error on no tokens, with a null dereference on a missing node, with "type not found" on a type name nothing resolves, and with the unknown-marker error on a first token that is none of the four markers |
| TypeExpressions.DecodeEncode | src/main/java/com/mattinsler/guiceymongo/data/generator/parser/TypeParser.java:97-112 | round trip: the tokens of any type expression followed by any suffix decode to the expression's resolved type with exactly the suffix left over, or fail with the first name that does not resolve |
| TypeExpressions.DecodeEncodeList | src/main/java/com/mattinsler/guiceymongo/data/generator/parser/TypeParser.java:105-106 | a list marker and one element expression decode to List of the element |
| TypeExpressions.DecodeEncodeSet | src/main/java/com/mattinsler/guiceymongo/data/generator/parser/TypeParser.java:107-108 | a set marker and one element expression decode to Set of the element |
| TypeExpressions.DecodeEncodeMap | src/main/java/com/mattinsler/guiceymongo/data/generator/parser/TypeParser.java:109-112 | a map marker, then the key expression, then the value expression decode to Map of key and value; the key's error comes first |
| TypeExpressions.DecodeLeavesSuffix | src/main/java/com/mattinsler/guiceymongo/data/generator/parser/TypeParser.java:98-111 | what the decoder leaves over is a suffix of its input: tokens are only removed from the front |
| TypeExpressions.DecodeRest | src/main/java/com/mattinsler/guiceymongo/data/generator/parser/TypeParser.java:97-112 | how far the decoder reads does not depend on how names resolve: a successful decoding leaves exactly the tokens the markers alone delimit |
| TypeExpressions.DecodeIgnoresRest | src/main/java/com/mattinsler/guiceymongo/data/generator/parser/TypeParser.java:97-112 | exactly one sub-expression is consumed: the consumed tokens followed by any other tokens decode to the same type, leaving those other tokens untouched |
| TypeExpressions.IgnoresRestMapCase | src/main/java/com/mattinsler/guiceymongo/data/generator/parser/TypeParser.java:109-112 | the map case of the above: key then value are consumed, and nothing after them |
| TypeExpressions.IgnoresRestUnary | src/main/java/com/mattinsler/guiceymongo/data/generator/parser/TypeParser.java:105-108 | the list and set cases of the above |
| TypeExpressions.TruncatedFails | src/main/java/com/mattinsler/guiceymongo/data/generator/parser/TypeParser.java:98-100 | any proper prefix of a type expression's tokens fails: removing from an exhausted list throws |
| TypeExpressions.SampleMapType | src/main/java/com/mattinsler/guiceymongo/data/generator/parser/TypeParser.java:109-112 | map<list<set<int>>, string> decodes to Map(List(Set(int)), string) with nothing left over |
| TypeExpressions.ParseType | src/main/java/com/mattinsler/guiceymongo/data/generator/parser/TypeParser.java:97-115 | the cursor-threading method consumes exactly the tokens the decoder consumes, returning its type, or fails with its error |
| Types.Qualify | src/main/java/com/mattinsler/guiceymongo/data/generator/parser/TypeParser.java:173 | a top-level name is itself; a nested qualified name starts with the parent's qualified name and a dot and ends with the name, with nothing else |
| Types.NewProperty | src/main/java/com/mattinsler/guiceymongo/data/generator/parser/TypeParser.java:140-157 | the property records owner, name, type, comment and naming flag, and its class is the one the type's variant calls for |
| Types.WithComment | src/main/java/com/mattinsler/guiceymongo/data/generator/parser/TypeParser.java:187 | setting the comment changes nothing else about a type |
| Population.TrailingComment | src/main/java/com/mattinsler/guiceymongo/data/generator/parser/TypeParser.java:129-133 | among the children after the type expression, the last comment wins |
| Population.TrailingIdentity | src/main/java/com/mattinsler/guiceymongo/data/generator/parser/TypeParser.java:129-137 | an identity option is collected exactly when some trailing option node is named identity |
| Population.IdentityAfterContent | src/main/java/com/mattinsler/guiceymongo/data/generator/parser/TypeParser.java:161-166 | the identity becomes the new property when some option is named identity, and is unchanged otherwise |
| Population.PropertyPopulation | src/main/java/com/mattinsler/guiceymongo/data/generator/parser/TypeParser.java:120-166 | exactly one property is appended after the existing ones; it has the first child's name, the resolved type, the matching class, the last trailing comment and the naming flag; the owner's identity becomes it exactly when an identity option is present; nothing else in the registry changes |
| Population.PropertyEvolves | src/main/java/com/mattinsler/guiceymongo/data/generator/parser/TypeParser.java:159-166 | adding a property keeps every shell, adds no types and changes no entry but its owner's |
| Population.EnumValues | src/main/java/com/mattinsler/guiceymongo/data/generator/parser/TypeParser.java:199-208 | the enum loop keeps every shell, adds no types and changes no entry but the enum's own |
| Population.EnumEffect | src/main/java/com/mattinsler/guiceymongo/data/generator/parser/TypeParser.java:193-209 | populating an enum keeps every shell, adds no types and changes no entry but the one under the enum's qualified name; a node without children changes nothing |
| Population.EnumValuesContent | src/main/java/com/mattinsler/guiceymongo/data/generator/parser/TypeParser.java:199-208 | the values are the earlier ones followed by every non-comment child's text in order, duplicates kept; the last comment wins |
| Population.EnumPopulation | src/main/java/com/mattinsler/guiceymongo/data/generator/parser/TypeParser.java:196-208 | the enum is the one registered under the qualified name, with those values and that comment |
| Population.DataEffect | src/main/java/com/mattinsler/guiceymongo/data/generator/parser/TypeParser.java:169-191 | a node without children changes nothing; every data type stays registered and stays a data type |
| Population.DataEffectEvolves | src/main/java/com/mattinsler/guiceymongo/data/generator/parser/TypeParser.java:169-191 | populating a data type keeps every shell, adds no types and changes only the type under its qualified name and the types declared inside it; every other entry, including every other top-level type, is untouched |
| Population.DataMembers | src/main/java/com/mattinsler/guiceymongo/data/generator/parser/TypeParser.java:175-190 | the loop over a data node's children keeps every data type registered and a data type |
| Population.DataMembersEvolves | src/main/java/com/mattinsler/guiceymongo/data/generator/parser/TypeParser.java:175-190 | the loop over a data node's children keeps every shell and changes only the data type itself and the types declared inside it |
| Population.DataMember | src/main/java/com/mattinsler/guiceymongo/data/generator/parser/TypeParser.java:176-189 | one child of a data node keeps every data type registered and a data type |
| Population.DataMemberEvolves | src/main/java/com/mattinsler/guiceymongo/data/generator/parser/TypeParser.java:176-189 | one child of a data node, of any kind, keeps every shell and changes only the data type itself and the types declared inside it |
| Population.DataMembersContent | src/main/java/com/mattinsler/guiceymongo/data/generator/parser/TypeParser.java:175-190 | for the data type `d'` the loop leaves: the earlier properties stay a prefix; the headings (owner, name, comment, naming flag) of the properties become the earlier headings followed by one per property child in child order, owned by the data type, named as that child declares and commented by that child's last trailing comment; the identity is that of the identity fold over the property children; the last comment child wins |
| Population.MemberStep | src/main/java/com/mattinsler/guiceymongo/data/generator/parser/TypeParser.java:176-189 | per child: a property child is exactly one property population, appending one property with its owner, declared name, trailing comment and naming flag, and making it the identity exactly when it carries an identity option; a comment replaces the comment; nested data and enum declarations leave this type's properties, identity and comment alone |
| Population.DataPopulation | src/main/java/com/mattinsler/guiceymongo/data/generator/parser/TypeParser.java:172-190 | the data type is the one registered under the qualified name; its property headings (owner, name, comment, naming flag) become the earlier headings followed by one per property child in order, owned by it and named and commented as that child declares, its identity is the identity fold over the property children, and the last comment child wins |
| Population.LaterIdentityWins | src/main/java/com/mattinsler/guiceymongo/data/generator/parser/TypeParser.java:161-166 | of two property children of one data declaration that both carry an identity option, the later wins: after the whole declaration the identity is the later one's property or a later property, never the earlier one's |
| Population.LastIdentityWins | src/main/java/com/mattinsler/guiceymongo/data/generator/parser/TypeParser.java:161-166 | after the whole declaration the identity is exactly the property of the last property child carrying an identity option |
| Population.LastMarkedIdentity | src/main/java/com/mattinsler/guiceymongo/data/generator/parser/TypeParser.java:161-166 | the identity fold ends on the property of the last property child carrying an identity option, numbered by the property children before it |
| Population.UnmarkedIdentity | src/main/java/com/mattinsler/guiceymongo/data/generator/parser/TypeParser.java:161-166 | without a property child carrying an identity option the identity stays as it was |
| Population.IdentityAtLeast | src/main/java/com/mattinsler/guiceymongo/data/generator/parser/TypeParser.java:161-166 | a property child carrying an identity option leaves the identity on its own property or on a later one |
| Population.EvolvesNested | src/main/java/com/mattinsler/guiceymongo/data/generator/parser/TypeParser.java:176-181 | what a nested declaration changes lies inside the enclosing data type, and the enclosing type itself is not inside it |
| Population.EvolvesKeepsShape | src/main/java/com/mattinsler/guiceymongo/data/generator/parser/TypeParser.java:169-209 | keeping every shell keeps names, scopes and nested types consistent |
| Population.PropertyKeepsOwned | src/main/java/com/mattinsler/guiceymongo/data/generator/parser/TypeParser.java:159-166 | after a property is added, every property still belongs to its owner with the matching class, and the identity points into the properties |
| Population.EnumKeepsOwned | src/main/java/com/mattinsler/guiceymongo/data/generator/parser/TypeParser.java:199-208 | enum population leaves properties well formed |
| Population.DataEffectKeepsOwned | src/main/java/com/mattinsler/guiceymongo/data/generator/parser/TypeParser.java:169-191 | data population leaves properties well formed |
| Population.DataMembersKeepsOwned | src/main/java/com/mattinsler/guiceymongo/data/generator/parser/TypeParser.java:175-190 | the loop over a data node's children leaves properties well formed |
| Population.DataMemberKeepsOwned | src/main/java/com/mattinsler/guiceymongo/data/generator/parser/TypeParser.java:176-189 | one child of a data node leaves properties well formed |
| Population.DataEffectKeepsWellFormed | src/main/java/com/mattinsler/guiceymongo/data/generator/parser/TypeParser.java:169-191 | populating a data type keeps the registry well formed, even when it stops at an error |
| Population.EnumEffectKeepsWellFormed | src/main/java/com/mattinsler/guiceymongo/data/generator/parser/TypeParser.java:193-209 | populating an enum keeps the registry well formed |
| Registration.AddChild | src/main/java/com/mattinsler/guiceymongo/data/generator/parser/TypeParser.java:217-222 | the parent's nested types become the old ones followed by the new name; every other entry, and the whole registry at the top level, is unchanged; keys stay the same |
| Registration.NewShell | src/main/java/com/mattinsler/guiceymongo/data/generator/parser/TypeParser.java:215-222 | a data declaration yields a data shell and any other an enum shell, named by its first child and scoped by its parent, with no comment; a data shell has no properties, identity or nested types, an enum shell no values |
| Registration.Registered | src/main/java/com/mattinsler/guiceymongo/data/generator/parser/TypeParser.java:211-238 | pass 1 only adds types and appends nested types |
| Registration.RegisteredFrom | src/main/java/com/mattinsler/guiceymongo/data/generator/parser/TypeParser.java:227-234 | the loop over children only adds types and appends nested types |
| Registration.DeclarationRegistered | src/main/java/com/mattinsler/guiceymongo/data/generator/parser/TypeParser.java:215-225 | every declaration's qualified name is registered afterwards |
| Registration.DuplicateSkipsSubtree | src/main/java/com/mattinsler/guiceymongo/data/generator/parser/TypeParser.java:224-237 | a declaration whose name is already registered is still listed under its parent, but its own subtree is not visited |
| Registration.EveryChildRegistered | src/main/java/com/mattinsler/guiceymongo/data/generator/parser/TypeParser.java:227-237 | every declaration child is registered whatever happens to its siblings: an exception never leaves its node |
| Registration.RegisteredUntouched | src/main/java/com/mattinsler/guiceymongo/data/generator/parser/TypeParser.java:211-238 | a registered entry is changed only by its own direct children |
| Registration.RegisteredFromUntouched | src/main/java/com/mattinsler/guiceymongo/data/generator/parser/TypeParser.java:227-234 | the same for the loop over children |
| Registration.ChildStep | src/main/java/com/mattinsler/guiceymongo/data/generator/parser/TypeParser.java:217-233 | visiting one child of a data type appends that child's qualified name when it is a declaration, even a failing one, and nothing else there changes |
| Registration.ChildrenListed | src/main/java/com/mattinsler/guiceymongo/data/generator/parser/TypeParser.java:227-233 | a data type's nested types are exactly its declaration children, in order |
| Registration.FreshShell | src/main/java/com/mattinsler/guiceymongo/data/generator/parser/TypeParser.java:215-233 | a new declaration is registered as a shell of its node's kind with its name and parent, no properties, values, identity or comment, and, for data, exactly its declaration children as nested types |
| Registration.RegisteredKeepsWellFormed | src/main/java/com/mattinsler/guiceymongo/data/generator/parser/TypeParser.java:211-238 | pass 1 keeps the registry well formed |
| Registration.RegisteredFromKeepsWellFormed | src/main/java/com/mattinsler/guiceymongo/data/generator/parser/TypeParser.java:227-234 | the loop over children keeps the registry well formed |
| Registration.AddChildKeepsWellFormed | src/main/java/com/mattinsler/guiceymongo/data/generator/parser/TypeParser.java:217-225 | listing an already registered name under its parent keeps the registry well formed |
| Registration.NewShellKeepsWellFormed | src/main/java/com/mattinsler/guiceymongo/data/generator/parser/TypeParser.java:215-225 | registering a new shell keeps the registry well formed |
| Registration.NewShellKeepsNames | src/main/java/com/mattinsler/guiceymongo/data/generator/parser/TypeParser.java:215-225 | a new shell keeps names, scopes and properties consistent |
| Registration.NewShellKeepsChildren | src/main/java/com/mattinsler/guiceymongo/data/generator/parser/TypeParser.java:215-225 | a new shell keeps every nested type registered inside its parent's scope |
| Compilation.TopLevel | src/main/java/com/mattinsler/guiceymongo/data/generator/parser/TypeParser.java:250-261 | pass 2 at the top level adds no types and keeps every shell |
| Compilation.TopLevelIgnoresOthers | src/main/java/com/mattinsler/guiceymongo/data/generator/parser/TypeParser.java:250-261 | removing end-of-file markers and every child that is not a data or enum declaration changes nothing |
| Compilation.NoTreeNoChange | src/main/java/com/mattinsler/guiceymongo/data/generator/parser/TypeParser.java:241-242 | a null tree leaves the registry unchanged |
| Compilation.TopLevelKeepsWellFormed | src/main/java/com/mattinsler/guiceymongo/data/generator/parser/TypeParser.java:250-261 | pass 2 at the top level keeps the registry well formed |
| Compilation.CompiledKeepsWellFormed | src/main/java/com/mattinsler/guiceymongo/data/generator/parser/TypeParser.java:240-262 | a whole compilation keeps the registry well formed, even when it stops at an error |
| Compilation.CompiledRegistry | src/main/java/com/mattinsler/guiceymongo/data/generator/parser/TypeParser.java:240-262 | no type known before is lost, exactly the types pass 1 knows remain, and below a nil root every top-level declaration is registered under its own name |
| Parser.TypeParser.constructor | src/main/java/com/mattinsler/guiceymongo/data/generator/parser/TypeParser.java:51-55 | stores the registry and the two flags |
| Parser.TypeParser.AddType | src/main/java/com/mattinsler/guiceymongo/data/generator/parser/TypeParser.java:225 | registers a new type; a name already taken fails and changes nothing |
| Parser.TypeParser.AddChildType | src/main/java/com/mattinsler/guiceymongo/data/generator/parser/TypeParser.java:218 | appends a nested type to a data type |
| Parser.TypeParser.AddProperty | src/main/java/com/mattinsler/guiceymongo/data/generator/parser/TypeParser.java:159 | appends a property after the existing ones |
| Parser.TypeParser.SetIdentityProperty | src/main/java/com/mattinsler/guiceymongo/data/generator/parser/TypeParser.java:164 | designates the identity property |
| Parser.TypeParser.SetComment | src/main/java/com/mattinsler/guiceymongo/data/generator/parser/TypeParser.java:187 | replaces a type's comment |
| Parser.TypeParser.AddValue | src/main/java/com/mattinsler/guiceymongo/data/generator/parser/TypeParser.java:205 | appends an enum value |
| Parser.TypeParser.ParsePropertyTree | src/main/java/com/mattinsler/guiceymongo/data/generator/parser/TypeParser.java:117-167 | leaves exactly the registry property population describes; on an error the registry is unchanged |
| Parser.TypeParser.CollectTrailing | src/main/java/com/mattinsler/guiceymongo/data/generator/parser/TypeParser.java:126-138 | the loop collects exactly the trailing options and last comment, or the first error |
| Parser.TypeParser.ApplyIdentityOptions | src/main/java/com/mattinsler/guiceymongo/data/generator/parser/TypeParser.java:161-166 | the loop sets the identity exactly as identity-option population describes |
| Parser.TypeParser.ParseEnumTree | src/main/java/com/mattinsler/guiceymongo/data/generator/parser/TypeParser.java:193-209 | leaves exactly the registry and error enum population describes |
| Parser.TypeParser.ParseDataTree | src/main/java/com/mattinsler/guiceymongo/data/generator/parser/TypeParser.java:169-191 | leaves exactly the registry and error data population describes |
| Parser.TypeParser.ParseDataMember | src/main/java/com/mattinsler/guiceymongo/data/generator/parser/TypeParser.java:176-189 | one pass of the data loop leaves exactly the registry and error that dispatching that one child describes |
| Parser.TypeParser.RegisterAllUserTypes | src/main/java/com/mattinsler/guiceymongo/data/generator/parser/TypeParser.java:211-238 | leaves exactly the registry pass 1 describes |
| Parser.TypeParser.Parse | src/main/java/com/mattinsler/guiceymongo/data/generator/parser/TypeParser.java:240-262 | leaves exactly the registry and error the whole compilation describes |

## Left out

- Console output: the registered types printed when not quiet (TypeParser.java lines 245-248) and `printStackTrace` (line 236). The quiet flag is only stored.
- The value of a float literal: `Float.parseFloat`'s numerics are not modelled. A float literal keeps its text, and only the decision that the text is float-shaped is modelled.
- Hexadecimal float syntax and non-ASCII digits accepted by `Float.parseFloat` and `Integer.parseInt`: only ASCII decimal syntax is modelled.
- The internals of `TypeRegistry`, `Option`, the type classes and the property classes are not part of this model.
  - The scoped lookup is an uninterpreted parameter, and no scope-walk order is asserted.
  - `Option.addParameter` is a map update in which a later parameter of the same name wins.
  - The camel-case flag is only stored on each property.
- The ANTLR runtime: token types are a `Kind` enumeration and trees are values. How ANTLR takes the text of a nil node is not modelled; its text is the node's `text` field.
- The Java `assert` lines (71, 87, 118, 170, 194): the model does not check a routine's node kind. The callers' dispatch guarantees it.
- The source removes the name child from data and enum nodes (`children.remove(0)`) and consumes a property's type tokens from the node's own child list. That mutation of the tree is not modelled. Nothing reads those lists again, so no result depends on it.
- Aliasing: owners are registry entries addressed by qualified name, not shared objects. A shell created for a duplicate name and listed under its parent is recorded as that name in the parent's nested types.
- Compilation.CompiledRegistry: the top-level registration claim is stated only for a root that is not itself a declaration, such as the nil node ANTLR builds for several declarations. Below a declaration root, the children are registered inside that root's scope.
- TypeExpressions.DecodeType: its own contract states only progress. The round trip, suffix and truncation lemmas carry the structure.
- UserEnumProperty is represented only as the enum case of the property class.
- DataMembersContent: for the whole loop it states each appended property's owner, name, comment and naming flag, and the resulting identity, but not its type or kind. Those are stated child by child through MemberStep and PropertyPopulation, because each type is resolved against the registry as it stands when that child is reached.
- DataPopulation: as for DataMembersContent, each appended property's type and kind are not stated for the whole declaration, only per child through MemberStep and PropertyPopulation.
