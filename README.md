# Cake Bakery core, modelled in Dafny

This project models three sequential pieces of Cake Bakery, the script-authoring
back end of the Cake build system. It proves properties about each one.

- **The method-alias generator** (`CakeMethodAliasGenerator`). It turns the
  descriptor of a script alias into the C# text of a wrapper method. The
  aliased method is an extension method that takes the Cake context as its
  first parameter; the wrapper drops that parameter and passes `Context` in its
  place, so scripts call it without naming the context. The emitted text has
  four parts:
  - the header: documentation, `public`, the return type, the name, generic
    arguments, parameters and `where` clauses;
  - a braced body;
  - the body's contents, which depend on the `[Obsolete]` state;
  - the invocation, where `Context` stands in for the dropped receiver.

  `method_alias_generator.dfy` specifies this text with functions (`Header`,
  `Invocation`, `Body`, `Generation`). Methods write it step by step to an
  `IndentedTextWriter` over an append-only sink, as the C# code does, and each
  method is proved to write exactly that text.
- **The file-change serializer** (`FileChangeSerializer`). It handles the
  binary wire form of an editor's file change. `file_change_serializer.dfy`
  has `Serialize` over a `BinaryWriter` and `Deserialize` over a
  `BinaryReader`. Each is proved against a byte-level encoder or decoder
  function. The round trip and the tag check are proved about those
  functions.
  - `binary_format.dfy` models the .NET `BinaryWriter`/`BinaryReader`
    primitives the serializer uses: little-endian two's-complement Int16 and
    Int32, one-byte Booleans, and strings prefixed by their 7-bit-encoded
    UTF-8 byte count.
  - `utf8.dfy` models strict UTF-8.
- **The caching addin processor** (`CachingScriptProcessor`). It is a
  memoizing decorator over the script processor that installs addins.
  `caching_script_processor.dfy` models it as a class with a `cache` map field
  that wraps an inner processor. The inner processor records each request and
  answers from the request and the requests before it.
  - `InstallAddins` is proved to compute the specification function `Install`.
  - It keeps the invariant `Memoizes`: every forwarded call carries one
    non-Cake addin, no key is forwarded twice, and the cache holds each call's
    answer.
  - Lemmas about `Install` state what the decorator promises to its callers.

Shared helpers:
- `wrappers.dfy` has `Option` and `Result`.
- `sequences.dfy` has placement of a sequence inside another, regrouping of
  concatenations, and flattening.
- `text.dfy` has `string.Join` and its inverse, splitting.

Three behaviours of the code that the model reproduces:
- The public `Generate` checks only the alias for null (line 26).
- A null return type is guarded in the header (line 43). The invocation then
  dereferences it (line 136). So an alias that has no return type and is not
  obsolete as an error writes the header and the start of its body, and then
  ends with `NullReferenceException`.
- The cache is a dictionary built with `PackageReferenceComparer` (line 17 of
  `CachingScriptProcessor.cs`), so two references the comparer equates share
  one entry.

## Model

| member | source | states |
|---|---|---|
| MethodAliasGenerator.Generate | src/Cake.Scripting/CodeGen/Generators/CakeMethodAliasGenerator.cs:24-32 | appends exactly `GenerateAlias`'s text to the writer and ends with its exception: a null alias writes nothing and is `ArgumentNullException` |
| MethodAliasGenerator.GenerateInto | src/Cake.Scripting/CodeGen/Generators/CakeMethodAliasGenerator.cs:34-131 | writes the header, the braced body and the closing brace (the brace only when the body completes); the indentation depth is restored on every way out of the scope |
| MethodAliasGenerator.WriteHeader | src/Cake.Scripting/CodeGen/Generators/CakeMethodAliasGenerator.cs:36-85 | writes documentation, `public`, return type, name, generic arguments, declaration parameters and constraint clauses, in that order |
| MethodAliasGenerator.WriteConstraints | src/Cake.Scripting/CodeGen/Generators/CakeMethodAliasGenerator.cs:73-85 | the `foreach` writes exactly the constraint clauses of the generic parameters, in order |
| MethodAliasGenerator.WriteBody | src/Cake.Scripting/CodeGen/Generators/CakeMethodAliasGenerator.cs:87-129 | writes the body the obsolete state calls for and reports the exception the invocation raises |
| MethodAliasGenerator.WriteInvocation | src/Cake.Scripting/CodeGen/Generators/CakeMethodAliasGenerator.cs:133-159 | a null return type fails with `NullReferenceException` before anything is written; otherwise it writes exactly the invocation |
| MethodAliasGenerator.WriteMethodParameters | src/Cake.Scripting/CodeGen/Generators/CakeMethodAliasGenerator.cs:161-182 | writes exactly the parameter list of the chosen mode |
| MethodAliasGenerator.GenerateTwice | src/Cake.Scripting/CodeGen/Generators/CakeMethodAliasGenerator.cs:24-32 | generation is deterministic: the same alias gives the same text twice |
| MethodAliasGenerator.NullAliasRejected | src/Cake.Scripting/CodeGen/Generators/CakeMethodAliasGenerator.cs:26-29 | a null alias is `ArgumentNullException` with nothing written |
| MethodAliasGenerator.VoidReturnTypeIsKeyword | src/Cake.Scripting/CodeGen/Generators/CakeMethodAliasGenerator.cs:43-53 | a `System.Void` return type is written as the keyword `void`, followed by a space, right after `public ` |
| MethodAliasGenerator.GenericArgumentsListNames | src/Cake.Scripting/CodeGen/Generators/CakeMethodAliasGenerator.cs:60-65 | no generic parameters give no suffix; otherwise the suffix is `<`…`>`, and splitting its inside at commas gives back exactly the parameter names in declared order |
| MethodAliasGenerator.GenericArgumentsExample | src/Cake.Scripting/CodeGen/Generators/CakeMethodAliasGenerator.cs:60-65 | generic parameters T and U give `<T,U>` |
| MethodAliasGenerator.WhereClausesAppend | src/Cake.Scripting/CodeGen/Generators/CakeMethodAliasGenerator.cs:75-84 | the clauses of two runs of generic parameters are the clauses of each run, concatenated in order |
| MethodAliasGenerator.WhereClausesEmptyIff | src/Cake.Scripting/CodeGen/Generators/CakeMethodAliasGenerator.cs:73-85 | no clause is written exactly when no generic parameter has a constraint |
| MethodAliasGenerator.WhereClausesPerParameter | src/Cake.Scripting/CodeGen/Generators/CakeMethodAliasGenerator.cs:75-84 | the clauses are, in order, one ` where N : c1,c2` per constrained parameter and nothing per unconstrained one |
| MethodAliasGenerator.GenericConstraintExample | src/Cake.Scripting/CodeGen/Generators/CakeMethodAliasGenerator.cs:73-85 | unconstrained T and U constrained to `class, new()` give the single clause ` where U : class,new()` |
| MethodAliasGenerator.ErrorBodyIsThrowOnly | src/Cake.Scripting/CodeGen/Generators/CakeMethodAliasGenerator.cs:98-103 | obsolete as an error: the body is the throw statement alone, with no invocation and no pragmas, whatever the return type |
| MethodAliasGenerator.WarningBodyOrder | src/Cake.Scripting/CodeGen/Generators/CakeMethodAliasGenerator.cs:104-127 | obsolete as a warning: the warning, the disable pragma, the invocation and the restore pragma, one per line, in that order |
| MethodAliasGenerator.PlainBodyIsInvocation | src/Cake.Scripting/CodeGen/Generators/CakeMethodAliasGenerator.cs:111-121 | not obsolete: the body is the invocation alone |
| MethodAliasGenerator.GenerationCompletesIff | src/Cake.Scripting/CodeGen/Generators/CakeMethodAliasGenerator.cs:93-136 | generation completes exactly when the alias is obsolete as an error or has a return type; otherwise it ends with `NullReferenceException` |
| MethodAliasGenerator.InvocationShape | src/Cake.Scripting/CodeGen/Generators/CakeMethodAliasGenerator.cs:136-158 | the invocation starts with `return ` when the method does not return `System.Void`, starts with the declaring type when it does, and ends with `);` |
| MethodAliasGenerator.ReceiverReplacedByContext | src/Cake.Scripting/CodeGen/Generators/CakeMethodAliasGenerator.cs:169-181 | the receiver is dropped; a declaration has one item fewer than there are parameters; an invocation has `Context` in the receiver's place; every other item is its parameter's fragments joined by a space, in order |
| MethodAliasGenerator.InvocationArgumentsStartWithContext | src/Cake.Scripting/CodeGen/Generators/CakeMethodAliasGenerator.cs:173-180 | the invocation arguments are `Context`, then the other parameters each preceded by `, ` |
| MethodAliasGenerator.EmptyParameterList | src/Cake.Scripting/CodeGen/Generators/CakeMethodAliasGenerator.cs:173-181 | an empty parameter list writes nothing in either mode |
| MethodAliasGenerator.CopyFileDeclaration | src/Cake.Scripting/CodeGen/Generators/CakeMethodAliasGenerator.cs:161-182 | `CopyFile(context, source, dest)` is declared with `Path source, Path dest` |
| MethodAliasGenerator.CopyFileInvocation | src/Cake.Scripting/CodeGen/Generators/CakeMethodAliasGenerator.cs:161-182 | `CopyFile(context, source, dest)` is invoked with `Context, source, dest` |
| MethodAliasGenerator.CopyFileGeneration | src/Cake.Scripting/CodeGen/Generators/CakeMethodAliasGenerator.cs:24-159 | the full text generated for the `CopyFile` alias |
| Text.SplitJoin | src/Cake.Scripting/CodeGen/Generators/CakeMethodAliasGenerator.cs:63 | splitting at the separator undoes `string.Join` when no item contains the separator |
| FileChangeSerializer.Serialize | src/Cake.Scripting.Transport/Serialization/FileChangeSerializer.cs:13-48 | a null writer or file change is `ArgumentNullException` naming it, with nothing written; otherwise it appends exactly `EncodeFileChange`'s bytes |
| FileChangeSerializer.Deserialize | src/Cake.Scripting.Transport/Serialization/FileChangeSerializer.cs:50-89 | a null reader is `ArgumentNullException`; the result and final position agree with `DecodeFileChange`; the result is `InvalidOperationException` exactly when a tag was read and it differs, and then only the tag has been read |
| FileChangeSerializer.ReadBody | src/Cake.Scripting.Transport/Serialization/FileChangeSerializer.cs:64-86 | the reads after the tag agree with `DecodeBody`, including the first failing read's exception |
| FileChangeSerializer.ReadHeader | src/Cake.Scripting.Transport/Serialization/FileChangeSerializer.cs:64-73 | FromDisk, Buffer and FileName are read in that order, agreeing with `DecodeHeader` |
| FileChangeSerializer.ReadLineChanges | src/Cake.Scripting.Transport/Serialization/FileChangeSerializer.cs:76-86 | the counted loop reads `count` line changes, or none for a count of zero or less, appended in stream order; the first failing read ends it with that read's exception |
| FileChangeSerializer.ReadLineChange | src/Cake.Scripting.Transport/Serialization/FileChangeSerializer.cs:79-84 | the four positions, then the text, agreeing with `DecodeLineChange` |
| FileChangeSerializer.DecodeLineChanges | src/Cake.Scripting.Transport/Serialization/FileChangeSerializer.cs:76-86 | when it succeeds it yields exactly `count` line changes, or none when the count is negative |
| FileChangeSerializer.FileChangeLayout | src/Cake.Scripting.Transport/Serialization/FileChangeSerializer.cs:24-47 | the record is the tag, then FromDisk, Buffer and FileName, then the count of line changes, then exactly that many records |
| FileChangeSerializer.FileChangeRoundTrip | src/Cake.Scripting.Transport/Serialization/FileChangeSerializer.cs:13-89 | reading a serialized record with the same tag gives back the record, with null entries as default line changes, and stops at its end |
| FileChangeSerializer.SerializeDeserialize | src/Cake.Scripting.Transport/Serialization/FileChangeSerializer.cs:13-89 | the bytes one `Serialize` call appends read back as the normalized record, whatever bytes surround them |
| FileChangeSerializer.WrongTag | src/Cake.Scripting.Transport/Serialization/FileChangeSerializer.cs:58-62 | a record read with a different tag is `InvalidOperationException`, whatever follows the tag |
| FileChangeSerializer.BodyRoundTrip | src/Cake.Scripting.Transport/Serialization/FileChangeSerializer.cs:28-86 | the fields after the tag read back as written |
| FileChangeSerializer.HeaderRoundTrip | src/Cake.Scripting.Transport/Serialization/FileChangeSerializer.cs:28-73 | FromDisk, Buffer and FileName read back as written |
| FileChangeSerializer.LineChangesRoundTrip | src/Cake.Scripting.Transport/Serialization/FileChangeSerializer.cs:37-86 | the counted loop reads back every entry the `foreach` wrote, in order, a null entry as the default line change |
| FileChangeSerializer.LineChangeRoundTrip | src/Cake.Scripting.Transport/Serialization/FileChangeSerializer.cs:42-84 | one line change reads back as written and stops at its end |
| FileChangeSerializer.NullWrittenAsDefault | src/Cake.Scripting.Transport/Serialization/FileChangeSerializer.cs:38-47 | a null entry is written exactly as the default line change is, never skipped |
| FileChangeSerializer.NormalizedSameBytes | src/Cake.Scripting.Transport/Serialization/FileChangeSerializer.cs:41 | a record and its normalized form serialize to the same bytes |
| FileChangeSerializer.SomesDefaults | src/Cake.Scripting.Transport/Serialization/FileChangeSerializer.cs:41-85 | the entries read back are the written entries with every null replaced by the default |
| BinaryFormat.BinaryWriter.WriteInt16 | src/Cake.Scripting.Transport/Serialization/FileChangeSerializer.cs:25 | appends the two little-endian bytes of the tag |
| BinaryFormat.BinaryWriter.WriteBool | src/Cake.Scripting.Transport/Serialization/FileChangeSerializer.cs:28 | appends one byte for FromDisk |
| BinaryFormat.BinaryWriter.WriteString | src/Cake.Scripting.Transport/Serialization/FileChangeSerializer.cs:31 | appends the 7-bit-encoded UTF-8 byte count, then the UTF-8 bytes |
| BinaryFormat.BinaryWriter.WriteInt32 | src/Cake.Scripting.Transport/Serialization/FileChangeSerializer.cs:37 | appends the four little-endian bytes |
| BinaryFormat.BinaryReader.ReadInt16 | src/Cake.Scripting.Transport/Serialization/FileChangeSerializer.cs:58 | agrees with `DecodeInt16` and keeps the position within the stream |
| BinaryFormat.BinaryReader.ReadBoolean | src/Cake.Scripting.Transport/Serialization/FileChangeSerializer.cs:67 | agrees with `DecodeBool`, where any non-zero byte is true |
| BinaryFormat.BinaryReader.ReadString | src/Cake.Scripting.Transport/Serialization/FileChangeSerializer.cs:70 | agrees with `DecodeString`: a negative length is an IOException, a short stream EndOfStream |
| BinaryFormat.BinaryReader.ReadInt32 | src/Cake.Scripting.Transport/Serialization/FileChangeSerializer.cs:76 | agrees with `DecodeInt32` |
| BinaryFormat.DecodeInt16 | src/Cake.Scripting.Transport/Serialization/FileChangeSerializer.cs:58 | consumes two bytes, or fails with EndOfStream exactly when fewer than two remain |
| BinaryFormat.Int16RoundTrip | src/Cake.Scripting.Transport/Serialization/FileChangeSerializer.cs:58 | every Int16, negative ones included, reads back from its bytes |
| BinaryFormat.Int32RoundTrip | src/Cake.Scripting.Transport/Serialization/FileChangeSerializer.cs:76 | every Int32, negative ones included, reads back from its bytes |
| BinaryFormat.BoolRoundTrip | src/Cake.Scripting.Transport/Serialization/FileChangeSerializer.cs:67 | a Boolean reads back from its byte |
| BinaryFormat.SevenBitRoundTrip | src/Cake.Scripting.Transport/Serialization/FileChangeSerializer.cs:70 | every 32-bit length prefix, negative ones included, reads back from its 7-bit encoding |
| BinaryFormat.StringRoundTrip | src/Cake.Scripting.Transport/Serialization/FileChangeSerializer.cs:70 | a string reads back from its length-prefixed UTF-8 bytes |
| Utf8.DecodeEncode | src/Cake.Scripting.Transport/Serialization/FileChangeSerializer.cs:70 | decoding a string's UTF-8 bytes gives the string back |
| Utf8.EncodeDecode | src/Cake.Scripting.Transport/Serialization/FileChangeSerializer.cs:70 | encoding what decoding accepted gives back the same bytes, so decoding is one-to-one |
| CachingScriptProcessor.CachingScriptProcessor.constructor | src/Cake.Bakery/Scripting/CachingScriptProcessor.cs:14-18 | wraps the processor with an empty cache keyed by the comparer's key; the invariant holds |
| CachingScriptProcessor.CachingScriptProcessor.Create | src/Cake.Bakery/Scripting/CachingScriptProcessor.cs:14-18 | a null processor is `ArgumentNullException("processor")`; otherwise a fresh decorator with an empty cache |
| CachingScriptProcessor.CachingScriptProcessor.InstallAddins | src/Cake.Bakery/Scripting/CachingScriptProcessor.cs:20-42 | the new cache, the inner processor's calls and the returned paths are those of `Install` from the old cache and calls; the invariant `Memoizes` is kept |
| CachingScriptProcessor.CachingScriptProcessor.InstallModules | src/Cake.Bakery/Scripting/CachingScriptProcessor.cs:44-47 | the cache and the inner processor's calls are unchanged |
| CachingScriptProcessor.CachingScriptProcessor.InstallTools | src/Cake.Bakery/Scripting/CachingScriptProcessor.cs:49-52 | the cache and the inner processor's calls are unchanged |
| CachingScriptProcessor.ScriptProcessor.InstallAddins | src/Cake.Bakery/Scripting/CachingScriptProcessor.cs:32 | the inner processor records the request and answers it from the request and the requests before it |
| CachingScriptProcessor.InstallMemoizes | src/Cake.Bakery/Scripting/CachingScriptProcessor.cs:23-34 | across calls and within one call, every forwarded request holds exactly one addin and never the Cake package, no key is forwarded twice, the cache holds each request's answer under its key, and each cached key was forwarded |
| CachingScriptProcessor.StepMemoizes | src/Cake.Bakery/Scripting/CachingScriptProcessor.cs:25-34 | one addin keeps that invariant |
| CachingScriptProcessor.MissAnswersCached | src/Cake.Bakery/Scripting/CachingScriptProcessor.cs:30-33 | on a miss, the answer is stored under the addin's key and no earlier entry changes |
| CachingScriptProcessor.MissDistinctKeys | src/Cake.Bakery/Scripting/CachingScriptProcessor.cs:30-32 | a miss forwards a key that no earlier request asked for |
| CachingScriptProcessor.MissKeysForwarded | src/Cake.Bakery/Scripting/CachingScriptProcessor.cs:32-33 | a miss adds exactly the key it forwarded |
| CachingScriptProcessor.InstallKeepsEntries | src/Cake.Bakery/Scripting/CachingScriptProcessor.cs:30-34 | the cache only grows: no entry is replaced or removed, and calls and paths are only appended to |
| CachingScriptProcessor.InstallCachesEvery | src/Cake.Bakery/Scripting/CachingScriptProcessor.cs:30-34 | afterwards every non-Cake addin has a cache entry, a null answer included |
| CachingScriptProcessor.InstallCollects | src/Cake.Bakery/Scripting/CachingScriptProcessor.cs:22-41 | the returned paths are the addins' cached answers concatenated in order; the Cake package and null answers add nothing |
| CachingScriptProcessor.CachedForwardsNothing | src/Cake.Bakery/Scripting/CachingScriptProcessor.cs:30 | when every addin is cached, nothing is forwarded and the cache is unchanged |
| CachingScriptProcessor.SecondInstallForwardsNothing | src/Cake.Bakery/Scripting/CachingScriptProcessor.cs:30-36 | installing the same addins a second time forwards nothing, and a null answer is not retried |
| CachingScriptProcessor.InstallSkipsCake | src/Cake.Bakery/Scripting/CachingScriptProcessor.cs:25-28 | installing the addins equals installing them without the Cake package: it is neither forwarded, cached nor collected |

## Left out

- Indentation text of `IndentedTextWriter`: its class is not part of this model. Only the scope depth is tracked, and it is proved restored. Line breaks are written as `"\n"`, where the real writer writes its `NewLine` (`Environment.NewLine` by default).
- The generator's constructor null checks (`CakeMethodAliasGenerator.cs` lines 20-21): the emitters are a value of function type, which cannot be null.
- `TypeEmitter`, `ParameterEmitter`, `WriteDocs` and `GetObsoleteMessage` are not part of this model; they are parameters of the `Emitters` datatype.
- Null strings inside the descriptor and inside a file change are not modelled; strings are values.
- A null `TextWriter` passed to the public `Generate` is not modelled. The code does not check it, and the model's writer is non-null.
- FileChangeSerializer.Serialize: its requires excludes a file change whose `Buffer`, `FileName` or some `NewText` has a UTF-8 form too long for an Int32 length prefix (2^31 bytes or more). .NET throws while writing such a string; the model does not cover that exception or the bytes written before it.
- `WriteString` is an extension method that is not part of this model. It is assumed to write the byte-count-prefixed UTF-8 form that `ReadString` reads.
- `Constants.FileChange.TypeAndVersion` is not part of this model. The tag is a parameter of `Serialize` and `Deserialize`.
- `FileChange` and `LineChange` are not part of this model. `new LineChange()` is assumed to have zero positions and empty text, and both records are modelled as values.
- BinaryFormat.DecodeString: ill-formed UTF-8 is the `InvalidUtf8` error. .NET would substitute U+FFFD, so such input is not modelled byte for byte. Strings are sequences of Unicode scalar values, and lone surrogates are not modelled.
- BinaryFormat.Read7BitInt follows the .NET Core rule that a fifth byte may carry only four bits. Other runtime versions' handling of overlong prefixes is not modelled.
- FileChangeSerializer.Deserialize: after a failed read other than the tag mismatch, the reader position is left unspecified.
- CachingScriptProcessor.CachingScriptProcessor.constructor: `PackageReferenceComparer` is not part of this model. The comparer is the key function `keyOf`, and two references with the same key are one dictionary entry.
- A null `addins` collection passed to the decorator's `InstallAddins` is not modelled; the collection is a sequence value.
- CachingScriptProcessor.CachingScriptProcessor.InstallAddins: the model does not cover the two exception paths of the loop.
  - If the inner processor throws (line 32), `_cache.Add` (line 33) is not reached. That addin stays uncached, the entries added earlier in the call remain, the paths collected so far are discarded, and a later call forwards the addin again. A null answer behaves the other way: it is cached and not retried.
  - A null element of `addins`, or one whose `Package` is null, raises `NullReferenceException` at line 25.
  - The inner processor is a total function `respond` here, and package references are values, so neither path can arise.
- The inner `IScriptProcessor` is not part of this model. It stands as a class that answers from the request and its history; its effects on disk are not modelled.
- `CacheModule.cs` (dependency-injection wiring) and `BufferedFile.cs` (an in-memory file stub) are not part of this model.
- `installPath` is only forwarded by the decorator. It is not part of the cache key, as in the code.
