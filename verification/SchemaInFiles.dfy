/** The schema text in a file header: when a file can be opened again (avro/devices/avro/datafile.py). */
module SchemaInFiles {
  import opened Basics
  import opened Schemas
  import opened SchemaText
  import opened SchemaRoundTrip
  import opened SchemaRules
  import opened ContainerFormat
  import opened ContainerSession

  /** The json module: what is dumped is loaded again. */
  datatype JsonText = JsonText(dumps: Json -> seq<byte>, loads: seq<byte> -> Option<Json>)

  ghost predicate SoundText(text: JsonText) {
    forall j :: text.loads(text.dumps(j)) == Some(j)
  }

  /** `str(schema)` */
  function TextOf(text: JsonText, env: Env, s: Schema): seq<byte> {
    text.dumps(Print(env, s, {}).0)
  }

  /** `schema.parse(json_string)`, with the definitions it has met. */
  function SchemaOf(text: JsonText, bs: seq<byte>): Option<(Env, Schema)> {
    match text.loads(bs)
    case None => None
    case Some(j) =>
      match Parse(j, None, NO_NAMES)
      case Failure(_) => None
      case Success((s, names)) => Some((names.defs, s))
  }

  /** The library of a file whose schema is s, with the definitions env. */
  function FileLibrary(lib: Library, text: JsonText, env: Env, s: Schema): Library {
    lib.(printSchema := _ => TextOf(text, env, s),
         parseSchema := bs =>
           match SchemaOf(text, bs)
           case None => None
           case Some((env', s')) => Some((DefsOf(env'), s')))
  }

  /** Every definition is met when the schema is printed. */
  predicate Closed(env: Env, s: Schema) {
    Print(env, s, {}).1 == env.Keys
  }

  /**
   * The schema text is read as the schema it was made from, definitions included, exactly if the schema
   * is faithful.
   */
  lemma TextIsReadBackExactlyWhenFaithful(text: JsonText, env: Env, s: Schema)
    requires SoundText(text) && Closed(env, s)
    ensures SchemaOf(text, TextOf(text, env, s)) == Some((env, s)) <==> Faithful(env, s, None, {})
  {
    hide Print, Parse, Faithful;
    RebuildsExactlyWhenFaithful(env, s);
    var r := Parse(Print(env, s, {}).0, None, NO_NAMES);
    if r.Success? && Rebuilds(env, s) {
      assert r.value.1.defs == env;
    }
  }

  /** So a file with a faithful schema can be opened, for reading and for appending. */
  lemma FaithfulFilesReopen(lib: Library, text: JsonText, env: Env, lay: Layout)
    requires SoundText(text) && Closed(env, lay.schema) && lay.defs == DefsOf(env)
    requires Faithful(env, lay.schema, None, {})
    ensures Reparsed(FileLibrary(lib, text, env, lay.schema), lay)
  {
    hide Print, Parse, Faithful;
    TextIsReadBackExactlyWhenFaithful(text, env, lay.schema);
  }
}
