/**
 * The nginx configuration generator script: command-line arguments of the
 * form `--key=value` folded into a settings object with defaults, the two
 * placeholder substitutions applied to a template, and `generateServerBlock`,
 * which writes a server block from a list of locations. The arguments are
 * those after the interpreter and script name (`process.argv.slice(2)`).
 */
module Nginx {
  import opened Wrappers
  import opened Strings

  /** `arg.replace(/^--/, '')`: one leading `--` removed, if present. */
  function StripDashes(arg: string): (r: string)
    ensures |arg| >= 2 && arg[..2] == "--" ==> arg == "--" + r
    ensures !(|arg| >= 2 && arg[..2] == "--") ==> r == arg
  {
    if |arg| >= 2 && arg[..2] == "--" then arg[2..] else arg
  }

  /** The `key` of `const [key, value] = stripped.split('=')`. */
  function ArgKey(arg: string): string {
    Split(StripDashes(arg), '=')[0]
  }

  /** The `value` of `const [key, value] = stripped.split('=')`: undefined when there is one piece. */
  function ArgValue(arg: string): Option<string> {
    var pieces := Split(StripDashes(arg), '=');
    if |pieces| > 1 then Some(pieces[1]) else None
  }

  /** The key is the text of the stripped argument before its first `=`, or all of it. */
  lemma ArgKeyBeforeFirstEquals(arg: string)
    ensures var s, key := StripDashes(arg), ArgKey(arg);
      && '=' !in key
      && |key| <= |s| && key == s[..|key|]
      && (|key| == |s| || s[|key|] == '=')
  {
    SplitHead(StripDashes(arg), '=');
  }

  /**
   * The value is undefined exactly when there is no `=`; otherwise it is
   * the text between the first `=` and the next one (or the end), so
   * anything after a second `=` is dropped.
   */
  lemma ArgValueBetweenEquals(arg: string)
    ensures ArgValue(arg).None? <==> '=' !in StripDashes(arg)
    ensures ArgValue(arg).Some? ==>
      var s, v := StripDashes(arg), ArgValue(arg).value;
      var n := |ArgKey(arg)| + 1 + |v|;
      && '=' !in v
      && n <= |s| && s[..n] == ArgKey(arg) + "=" + v
      && (n == |s| || s[n] == '=')
  {
    var s := StripDashes(arg);
    SplitOnePiece(s, '=');
    if |Split(s, '=')| > 1 {
      SplitSecondPiece(s, '=');
    }
  }

  /** One argument taken apart. */
  datatype Arg = Arg(key: string, value: Option<string>)

  function ParseArg(arg: string): Arg {
    Arg(ArgKey(arg), ArgValue(arg))
  }

  /** `result[key] = value` for each argument in turn, starting from `{}`. */
  function Fold(parsed: seq<Arg>): map<string, Option<string>> {
    if parsed == [] then map[]
    else Fold(parsed[..|parsed| - 1])[parsed[|parsed| - 1].key := parsed[|parsed| - 1].value]
  }

  /** The fold has a key exactly for the keys of the arguments. */
  lemma {:induction false} FoldKeys(parsed: seq<Arg>)
    ensures forall k :: k in Fold(parsed) <==> exists i :: 0 <= i < |parsed| && parsed[i].key == k
  {
    if parsed != [] {
      var p, last := parsed[..|parsed| - 1], parsed[|parsed| - 1];
      FoldKeys(p);
      forall k
        ensures k in Fold(parsed) <==> exists i :: 0 <= i < |parsed| && parsed[i].key == k
      {
        if k == last.key {
          assert parsed[|parsed| - 1].key == k;
        } else {
          if k in Fold(p) {
            var i :| 0 <= i < |p| && p[i].key == k;
            assert parsed[i].key == k;
          }
          if exists i :: 0 <= i < |parsed| && parsed[i].key == k {
            var i :| 0 <= i < |parsed| && parsed[i].key == k;
            assert p[i].key == k;
          }
        }
      }
    }
  }

  /** Under each key the fold holds the value of the LAST argument with that key. */
  lemma {:induction false} FoldLastWins(parsed: seq<Arg>, i: nat)
    requires i < |parsed| && forall j :: i < j < |parsed| ==> parsed[j].key != parsed[i].key
    ensures parsed[i].key in Fold(parsed) && Fold(parsed)[parsed[i].key] == parsed[i].value
  {
    if i < |parsed| - 1 {
      var p := parsed[..|parsed| - 1];
      assert p[i] == parsed[i];
      FoldLastWins(p, i);
    }
  }

  /**
   * `process.argv.slice(2).reduce((result, arg) => { ...; result[key] = value; ... }, {})`
   */
  method ParseArgs(argv: seq<string>) returns (args: map<string, Option<string>>)
    ensures args == Fold(seq(|argv|, i requires 0 <= i < |argv| => ParseArg(argv[i])))
  {
    ghost var parsed := seq(|argv|, i requires 0 <= i < |argv| => ParseArg(argv[i]));
    args := map[];
    for i := 0 to |argv|
      invariant args == Fold(parsed[..i])
    {
      var key, value := ArgKey(argv[i]), ArgValue(argv[i]);
      assert parsed[..i + 1][..i] == parsed[..i];
      args := args[key := value];
    }
    assert parsed[..|argv|] == parsed;
  }

  /** The values the script works with once the defaults are applied. */
  datatype Settings = Settings(env: string, domain: string, apiUrl: string, sslEnabled: bool, output: string)

  /** `args[key] || fallback`: the given value unless it is missing, undefined or empty. */
  function ValueOr(args: map<string, Option<string>>, key: string, fallback: string): (r: string)
    ensures key in args && args[key].Some? && args[key].value != "" ==> r == args[key].value
    ensures !(key in args && args[key].Some? && args[key].value != "") ==> r == fallback
  {
    if key in args && args[key].Some? && args[key].value != "" then args[key].value else fallback
  }

  /**
   * The defaults: env "dev", domain "example.com", api "http://api:8080",
   * output "./nginx.conf"; SSL stays on unless `ssl` is exactly "false".
   */
  function SettingsOf(args: map<string, Option<string>>): (s: Settings)
    ensures s.env == ValueOr(args, "env", "dev")
    ensures s.domain == ValueOr(args, "domain", "example.com")
    ensures s.apiUrl == ValueOr(args, "api", "http://api:8080")
    ensures s.output == ValueOr(args, "output", "./nginx.conf")
    ensures !s.sslEnabled <==> "ssl" in args && args["ssl"] == Some("false")
  {
    Settings(
      ValueOr(args, "env", "dev"),
      ValueOr(args, "domain", "example.com"),
      ValueOr(args, "api", "http://api:8080"),
      !("ssl" in args && args["ssl"] == Some("false")),
      ValueOr(args, "output", "./nginx.conf"))
  }

  /** With no arguments every setting takes its default. */
  lemma NoArgumentsDefaults()
    ensures SettingsOf(map[]) == Settings("dev", "example.com", "http://api:8080", true, "./nginx.conf")
  {
  }

  /** The template's file name, `nginx-${env}.conf`; the directory it is read from is left out. */
  function TemplateName(s: Settings): (name: string)
    ensures |name| == |s.env| + 11
    ensures name[..6] == "nginx-" && name[6..6 + |s.env|] == s.env && name[6 + |s.env|..] == ".conf"
  {
    "nginx-" + s.env + ".conf"
  }

  /**
   * The two substitutions: every `example.com` becomes the domain, then
   * every `http://api-backend:8080` becomes the API URL.
   */
  method Render(template: string, settings: Settings) returns (out: string)
    ensures out == ReplaceAll(ReplaceAll(template, "example.com", settings.domain),
                              "http://api-backend:8080", settings.apiUrl)
    ensures settings.domain == "example.com" ==>
      out == ReplaceAll(template, "http://api-backend:8080", settings.apiUrl)
    ensures !Occurs("example.com", template) && !Occurs("http://api-backend:8080", template) ==>
      out == template
  {
    out := template;
    out := ReplaceAll(out, "example.com", settings.domain);
    out := ReplaceAll(out, "http://api-backend:8080", settings.apiUrl);
    ReplaceAllSelf(template, "example.com");
    if !Occurs("example.com", template) && !Occurs("http://api-backend:8080", template) {
      ReplaceAllAbsent(template, "example.com", settings.domain);
      ReplaceAllAbsent(template, "http://api-backend:8080", settings.apiUrl);
    }
  }

  /** One entry of `options.locations`. */
  datatype Location = Location(path: string, config: string)

  /** `line => `        ${line}`` over every line. */
  function IndentAll(lines: seq<string>): (r: seq<string>)
    ensures |r| == |lines|
    ensures forall i :: 0 <= i < |lines| ==> r[i] == "        " + lines[i]
  {
    seq(|lines|, i requires 0 <= i < |lines| => "        " + lines[i])
  }

  /** `config.split('\n').map(...).join('\n')` */
  function Indent(config: string): string {
    Join(IndentAll(Split(config, '\n')), "\n")
  }

  /** Indenting keeps the number of lines and puts eight spaces before each. */
  lemma IndentEveryLine(config: string)
    ensures Split(Indent(config), '\n') == IndentAll(Split(config, '\n'))
  {
    var lines := IndentAll(Split(config, '\n'));
    forall i | 0 <= i < |lines|
      ensures '\n' !in lines[i]
    {
      assert lines[i] == "        " + Split(config, '\n')[i];
    }
    SplitJoin(lines, '\n');
  }

  /** The fixed head of every server block. */
  function Header(serverName: string, root: string): string {
    "server {\n    listen 80;\n    server_name " + serverName + ";\n    root " + root
      + ";\n    index index.html;\n    \n"
  }

  /** The text the loop appends for one location. */
  function LocationBlock(l: Location): string {
    "    location " + l.path + " {\n" + Indent(l.config) + "\n    }\n    \n"
  }

  /** The texts `block` gives for the locations of a list, one after the other, in list order. */
  function ConcatMap(ls: seq<Location>, block: Location -> string): string {
    if ls == [] then "" else ConcatMap(ls[..|ls| - 1], block) + block(ls[|ls| - 1])
  }

  /** The whole block: head, one block per location, closing brace. */
  function ServerBlock(serverName: string, root: string, ls: seq<Location>): string {
    Header(serverName, root) + ConcatMap(ls, LocationBlock) + "}\n"
  }

  lemma {:induction false} ConcatMapAppend(a: seq<Location>, b: seq<Location>, block: Location -> string)
    ensures ConcatMap(a + b, block) == ConcatMap(a, block) + ConcatMap(b, block)
    decreases |b|
  {
    if b == [] {
      assert a + b == a;
    } else {
      var b' := b[..|b| - 1];
      assert (a + b)[..|a + b| - 1] == a + b';
      assert (a + b)[|a + b| - 1] == b[|b| - 1];
      ConcatMapAppend(a, b', block);
    }
  }

  /** The first block and the rest: a list's texts start with that of its head. */
  lemma ConcatMapCons(ls: seq<Location>, block: Location -> string)
    requires ls != []
    ensures ConcatMap(ls, block) == block(ls[0]) + ConcatMap(ls[1..], block)
  {
    assert ls == [ls[0]] + ls[1..];
    ConcatMapAppend([ls[0]], ls[1..], block);
    assert [ls[0]][..0] == [];
  }

  lemma Framed(h: string, m: string, t: string)
    ensures (h + m + t)[..|h|] == h && (h + m + t)[|h + m + t| - |t|..] == t
  {
  }

  /**
   * The shape of a server block: it opens with the head, then the block of
   * the first location, then those of the rest in order, and ends with "}\n".
   */
  lemma ServerBlockShape(serverName: string, root: string, ls: seq<Location>)
    ensures var b, h := ServerBlock(serverName, root, ls), Header(serverName, root);
      && b[..|h|] == h
      && b[|b| - 2..] == "}\n"
      && (ls != [] ==> b == h + LocationBlock(ls[0]) + ConcatMap(ls[1..], LocationBlock) + "}\n")
  {
    Framed(Header(serverName, root), ConcatMap(ls, LocationBlock), "}\n");
    if ls != [] {
      ConcatMapCons(ls, LocationBlock);
    }
  }

  /** `generateServerBlock({ serverName, root, locations })` */
  method GenerateServerBlock(serverName: string, root: string, locations: seq<Location>) returns (block: string)
    ensures block == ServerBlock(serverName, root, locations)
  {
    block := Header(serverName, root);
    for i := 0 to |locations|
      invariant block == Header(serverName, root) + ConcatMap(locations[..i], LocationBlock)
    {
      assert locations[..i + 1][..i] == locations[..i];
      block := block + LocationBlock(locations[i]);
    }
    assert locations[..|locations|] == locations;
    block := block + "}\n";
  }
}
