/**
 When a field of a message is there: what the mappers make of an absent field, and of UNSET, in
 terms of the descriptor, for the mappers as they are meant and as they are emitted.
 */
module MapperPresence {
  import opened Wrappers
  import opened PythonTypes
  import opened PythonGraphs
  import opened TypeGraphs
  import opened CrossFile
  import opened PythonScopes
  import opened PythonMappers
  import opened MapperRoundTrip
  import opened MapperFill
  import opened MapperDepth
  import opened GeneratedMappers
  import opened MapperAgreement
  import opened MapperNames
  import opened MapperValues
  import opened MapperFields
  import opened MapperEnv

  // Over the Python types.

  /** from_pb gives UNSET exactly for an absent field with presence that is single, in no oneof and not required. */
  lemma ReadUnsetIff(env: Env, t: PyType, f: PyField, fields: Fields, depth: nat)
    requires t.PyMessage? && Shaped(t) && f in t.fields && f.oneof.None? && FromMessage(env, t, fields, depth).Some?
    ensures var v := FromMessage(env, t, fields, depth).value;
            && v.Object? && f.name in v.attrs
            && (v.attrs[f.name] == Unset <==> !f.isRepeated && !f.isMap && f.hasPresence && !f.isSchemaRequired && f.name !in fields)
  {
    MessageGives(env, t, fields, depth);
  }

  /**
   to_pb takes UNSET only for such a field, and leaves it out of the message; any other
   value of the field is there.
   */
  lemma WriteUnsetIff(env: Env, t: PyType, f: PyField, attrs: map<string, Attr>, depth: nat)
    requires t.PyMessage? && Shaped(t) && f in t.fields && f.oneof.None? && ToMessage(env, t, attrs, depth).Some?
    ensures ToMessage(env, t, attrs, depth).value.PbMessage? && f.name in attrs
    ensures attrs[f.name] == Unset ==> !f.isRepeated && !f.isMap && f.hasPresence && !f.isSchemaRequired
    ensures !f.isRepeated && !f.isMap && f.hasPresence && !f.isSchemaRequired ==>
              (f.name in ToMessage(env, t, attrs, depth).value.fields <==> attrs[f.name] != Unset)
  {
    WriteField(env, t, f, attrs, depth);
  }

  /** A field that a message leaves out, read and written again, is still left out. */
  lemma AbsentStaysAbsent(env: Env, t: PyType, f: PyField, fields: Fields, depth: nat)
    requires EnvOk(env) && t.PyMessage? && Shaped(t) && f in t.fields && FromMessage(env, t, fields, depth).Some?
    requires f.oneof.None? && !f.isRepeated && !f.isMap && f.hasPresence && !f.isSchemaRequired
    ensures var v := FromMessage(env, t, fields, depth).value;
            && v.Object?
            && var back := ToMessage(env, t, v.attrs, depth);
               back.Some? && back.value.PbMessage? && (f.name in back.value.fields <==> f.name in fields)
  {
    MessageFits(env, t, fields, depth);
    var attrs := FromMessage(env, t, fields, depth).value.attrs;
    MessageTrip(env, t, attrs, depth);
    ReadUnsetIff(env, t, f, fields, depth);
    WriteUnsetIff(env, t, f, attrs, depth);
  }

  // The emitted mappers, with harmless names.

  lemma EmittedReadsUnset(env: Env, scope: Scope, names: set<string>, n: string, f: PyField, fields: Fields, depth: nat)
    requires EnvOk(env) && QuietTypes(env, scope, names) && n in names && f in env[n].fields && f.oneof.None?
    requires FromRef(env, RefTo(env, n), PbMessage(n, fields), depth).Some?
    ensures var v := RunFromRef(env, scope, {}, RefTo(env, n), PbMessage(n, fields), depth);
            && v.Some? && v.value.Object? && f.name in v.value.attrs
            && (v.value.attrs[f.name] == Unset <==>
                  !f.isRepeated && !f.isMap && f.hasPresence && !f.isSchemaRequired && f.name !in fields)
  {
    QuietReadsRight(env, scope, names, RefTo(env, n), PbMessage(n, fields), depth);
    ReadUnsetIff(env, env[n], f, fields, depth - 1);
  }

  /** The name is there in what to_pb makes of what from_pb makes of the message. */
  predicate IsThereAgain(env: Env, scope: Scope, n: string, fields: Fields, name: string, depth: nat)
    requires n in env
  {
    var v := RunFromRef(env, scope, {}, RefTo(env, n), PbMessage(n, fields), depth);
    v.Some? &&
    var back := RunToRef(env, scope, RefTo(env, n), v.value, depth);
    back.Some? && back.value.PbMessage? && name in back.value.fields
  }

  lemma EmittedLeavesOut(env: Env, scope: Scope, names: set<string>, n: string, f: PyField, fields: Fields, depth: nat)
    requires EnvOk(env) && QuietTypes(env, scope, names) && n in names && f in env[n].fields
    requires f.oneof.None? && !f.isRepeated && !f.isMap && f.hasPresence && !f.isSchemaRequired
    requires FromRef(env, RefTo(env, n), PbMessage(n, fields), depth).Some?
    ensures IsThereAgain(env, scope, n, fields, f.name, depth) <==> f.name in fields
  {
    var ref, pb := RefTo(env, n), PbMessage(n, fields);
    SecondTripIsIdle(env, ref, pb, depth);
    QuietRuns(env, scope, names, ref, pb, depth);
    AbsentStaysAbsent(env, env[n], f, fields, depth - 1);
  }

  // Down to the descriptors.

  /** The Python field of a descriptor can be UNSET exactly when it is marked optional, with presence, single and in no oneof. */
  lemma OptionalKeyword(w: World, current: string, name: string, d: FieldDesc) returns (f: PyField)
    requires Known(w) && name in w.messages && d in w.messages[name].fields
    ensures f in TypeFor(w, current, MessageNode(name)).fields && f.name == d.name && f.oneof == d.oneof
    ensures f.oneof.None? && !f.isRepeated && !f.isMap && f.hasPresence && !f.isSchemaRequired <==>
              d.oneof.None? && !d.isList && !d.isMap && d.hasPresence && d.optionalKeyword
  {
    var fields := w.messages[name].fields;
    var i :| 0 <= i < |fields| && fields[i] == d;
    f := FieldsFor(w, current, fields)[i];
    assert f in FieldsFor(w, current, fields);
  }

  /** A message type in the module of a file after a successful run, with harmless names in all types of the module. */
  ghost predicate Harmless(w: World, files: seq<FileDesc>, models: map<string, PyGraph>, handlers: map<string, seq<Handler>>,
                           file: FileDesc, name: string)
  {
    && Known(w) && AllWellScoped(w) && FilesOk(w, files) && file in files
    && Buildable(w, files) && FinalGraphs(w, files, models) && file.path in models
    && var env := TypesByName(models[file.path].types);
       && QuietTypes(env, ScopeOf(w, models, handlers, file.path), Messages(env))
       && name in Messages(env) && name in w.messages
  }

  lemma FinalField(w: World, files: seq<FileDesc>, models: map<string, PyGraph>, handlers: map<string, seq<Handler>>,
                   file: FileDesc, name: string, d: FieldDesc)
    returns (f: PyField)
    requires Harmless(w, files, models, handlers, file, name) && d in w.messages[name].fields
    ensures var env := TypesByName(models[file.path].types); EnvOk(env) && f in env[name].fields
    ensures f.name == d.name && f.oneof == d.oneof
    ensures f.oneof.None? && !f.isRepeated && !f.isMap && f.hasPresence && !f.isSchemaRequired <==>
              d.oneof.None? && !d.isList && !d.isMap && d.hasPresence && d.optionalKeyword
  {
    assert FinalAt(w, files, models, file);
    FinalSelfConsistent(w, files, file);
    CollectedEnvOk(w, file.path, FinalRoots(w, files, file), models[file.path]);
    TypesByNameHolds(models[file.path].types);
    assert TypesByName(models[file.path].types)[name].Node() == MessageNode(name);
    f := OptionalKeyword(w, file.path, name, d);
  }

  /**
   In a generated file the emitted from_pb reads a field as UNSET exactly when the field is marked
   optional, with presence, and the message leaves it out; the emitted to_pb leaves it out again.
   */
  lemma GeneratedPresence(w: World, files: seq<FileDesc>, models: map<string, PyGraph>, handlers: map<string, seq<Handler>>,
                          file: FileDesc, name: string, d: FieldDesc, fields: Fields, depth: nat)
    requires Harmless(w, files, models, handlers, file, name) && d in w.messages[name].fields && d.oneof.None?
    requires var env := TypesByName(models[file.path].types); FromRef(env, RefTo(env, name), PbMessage(name, fields), depth).Some?
    ensures var env, scope := TypesByName(models[file.path].types), ScopeOf(w, models, handlers, file.path);
            var v := RunFromRef(env, scope, {}, RefTo(env, name), PbMessage(name, fields), depth);
            && v.Some? && v.value.Object? && d.name in v.value.attrs
            && (v.value.attrs[d.name] == Unset <==>
                  !d.isList && !d.isMap && d.hasPresence && d.optionalKeyword && d.name !in fields)
            && (!d.isList && !d.isMap && d.hasPresence && d.optionalKeyword ==>
                  (IsThereAgain(env, scope, name, fields, d.name, depth) <==> d.name in fields))
  {
    var env, scope := TypesByName(models[file.path].types), ScopeOf(w, models, handlers, file.path);
    var f := FinalField(w, files, models, handlers, file, name, d);
    EmittedReadsUnset(env, scope, Messages(env), name, f, fields, depth);
    if !d.isList && !d.isMap && d.hasPresence && d.optionalKeyword {
      EmittedLeavesOut(env, scope, Messages(env), name, f, fields, depth);
    }
  }
}
