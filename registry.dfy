/**
 * The parser registry (src/parsers/registry.ts) and its factory
 * (src/parsers/index.ts). `register` and `get` throw; here they return a
 * `Result` whose error carries the message the source throws.
 */
module Registry {
  import opened Wrappers
  import opened Profiles

  function AlreadyRegistered(id: string): string { "Parser already registered: " + id }

  function UnknownParser(id: string): string { "Unknown parser: " + id }

  /** What `get(id)` answers for a given map of parsers. */
  function Lookup(parsers: map<string, Parser>, id: string): (r: Result<Parser, string>)
    ensures r.Ok? <==> id in parsers
    ensures r.Ok? ==> r.value == parsers[id]
    ensures r.Err? ==> r.error == UnknownParser(id)
  {
    if id in parsers then Ok(parsers[id]) else Err(UnknownParser(id))
  }

  /** What `register(parser)` does to a map of parsers: refuse a taken id, else file the parser under its id. */
  function Registered(parsers: map<string, Parser>, parser: Parser): (r: Result<map<string, Parser>, string>)
    ensures r.Err? <==> parser.Id() in parsers
    ensures r.Err? ==> r.error == AlreadyRegistered(parser.Id())
    ensures r.Ok? ==> r.value.Keys == parsers.Keys + {parser.Id()}
  {
    if parser.Id() in parsers then Err(AlreadyRegistered(parser.Id())) else Ok(parsers[parser.Id() := parser])
  }

  /** After registering a new id, `get` of that id returns the parser. */
  lemma RegisterThenGet(parsers: map<string, Parser>, parser: Parser)
    requires parser.Id() !in parsers
    ensures Registered(parsers, parser).Ok?
    ensures Lookup(Registered(parsers, parser).value, parser.Id()) == Ok(parser)
  {
  }

  /** Registering one id changes no lookup of any other id. */
  lemma RegisterKeepsOthers(parsers: map<string, Parser>, parser: Parser, id: string)
    requires parser.Id() !in parsers && id != parser.Id()
    ensures Lookup(Registered(parsers, parser).value, id) == Lookup(parsers, id)
  {
  }

  class ParserRegistry {
    var parsers: map<string, Parser>

    constructor ()
      ensures parsers == map[]
    {
      parsers := map[];
    }

    /** `register`: a taken id is refused and the map is left as it was. */
    method Register(parser: Parser) returns (r: Result<(), string>)
      modifies this
      ensures Registered(old(parsers), parser).Err? ==>
                r == Err(Registered(old(parsers), parser).error) && parsers == old(parsers)
      ensures Registered(old(parsers), parser).Ok? ==> r.Ok? && parsers == Registered(old(parsers), parser).value
    {
      if parser.Id() in parsers {
        return Err(AlreadyRegistered(parser.Id()));
      }
      parsers := parsers[parser.Id() := parser];
      return Ok(());
    }

    /** `get`: the parser filed under `id`, or the unknown-parser error. */
    method Get(id: string) returns (r: Result<Parser, string>)
      ensures r == Lookup(parsers, id)
    {
      if id !in parsers {
        return Err(UnknownParser(id));
      }
      return Ok(parsers[id]);
    }
  }

  /** `createParserRegistry`, as written: only the default parser is registered. */
  method CreateParserRegistry() returns (registry: ParserRegistry)
    ensures fresh(registry) && registry.parsers == DefaultOnly()
  {
    registry := new ParserRegistry();
    var r := registry.Register(Default);
  }

  function DefaultOnly(): map<string, Parser> {
    map["default" := Default]
  }

  /** The factory's registry knows "default" and nothing else. */
  lemma DefaultOnlyKnowsDefault(id: string)
    ensures Lookup(DefaultOnly(), id).Ok? <==> id == "default"
  {
  }

  /** The profile ids the parser tests look up are unknown to the factory's registry. */
  lemma ProfilesUnknown()
    ensures Lookup(DefaultOnly(), AwesomeRust.Id()) == Err("Unknown parser: awesome-rust")
    ensures Lookup(DefaultOnly(), AwesomeZig.Id()) == Err("Unknown parser: awesome-zig")
    ensures Lookup(DefaultOnly(), AwesomePostgres.Id()) == Err("Unknown parser: awesome-postgres")
  {
    assert UnknownParser("awesome-rust") == "Unknown parser: awesome-rust";
    assert UnknownParser("awesome-zig") == "Unknown parser: awesome-zig";
    assert UnknownParser("awesome-postgres") == "Unknown parser: awesome-postgres";
  }

  function AllParsers(): map<string, Parser> {
    map["default" := Default, "awesome-rust" := AwesomeRust, "awesome-zig" := AwesomeZig,
        "awesome-postgres" := AwesomePostgres]
  }

  /** The factory with the three profiles registered beside the default parser. */
  method CreateFullParserRegistry() returns (registry: ParserRegistry)
    ensures fresh(registry) && registry.parsers == AllParsers()
  {
    registry := new ParserRegistry();
    var r := registry.Register(Default);
    r := registry.Register(AwesomeRust);
    r := registry.Register(AwesomeZig);
    r := registry.Register(AwesomePostgres);
  }

  /** Every parser of the full registry is found under its own id. */
  lemma FullRegistryServesAll(p: Parser)
    requires p in {Default, AwesomeRust, AwesomeZig, AwesomePostgres}
    ensures Lookup(AllParsers(), p.Id()) == Ok(p)
  {
  }
}
