/** From text to bytes: lexing, parsing, checking with folding, and emission together. */
module Pipeline {
  import opened Syntax
  import opened Builtins
  import opened Typing
  import opened Fold
  import opened Judgement
  import opened CheckSpec
  import opened CheckProgram
  import opened LongCalls
  import opened LongScripts
  import opened ParsedProper
  import opened LexSpec
  import LexRender
  import Macros
  import Conditionals
  import CondRefines
  import PreprocSpec
  import LineFidelity
  import Preproc
  import ParseSpec
  import Grammar
  import ParseComplete
  import Printer
  import ScriptPrinter
  import PrintExact
  import Slbc
  import SlbcProofs
  import SlbcExact
  import Lexer
  import Parser
  import Sem
  import Emitter

  /** The tables and conversions a run depends on. */
  datatype Setup = Setup(read: FloatReader, ops: FloatOps, bi: Tables, lso: bool, maxErrors: int)

  ghost predicate SetupOk(u: Setup) {
    TablesOk(u.bi) && u.maxErrors > 0
  }

  /** The bytes written for a text; none if any phase reports an error. */
  function Compile(u: Setup, text: string): Option<seq<Byte>> {
    var (tokens, lexErrors) := LexText(u.read, text);
    var parsed := ParseSpec.ParseScript(tokens, u.maxErrors);
    var checked := CheckScript(u.ops, u.bi, u.lso, parsed.v);
    if lexErrors > 0 || parsed.errs > 0 || checked.errs > 0 then None
    else Some(Slbc.FileBytes(checked.v, u.lso))
  }

  /** The same, run phase by phase; a run has memory to read from. */
  method Run(u: Setup, hash: string -> nat, text: string) returns (bytes: Option<seq<Byte>>)
    requires u.bi.beyond.FromMemory?
    ensures bytes == Compile(u, text)
  {
    hide LexText, ParseSpec.ParseScript, CheckScript, Slbc.FileBytes;
    var tokens, lexErrors := Lexer.LexAll(u.read, text);
    var parser := new Parser.Parse(tokens, u.maxErrors);
    var script := parser.ParseWholeScript();
    var out, errors := Sem.SemCheck(u.ops, u.bi, u.lso, hash, script);
    if lexErrors > 0 || parser.errors > 0 || errors > 0 { return None; }
    var emitter := new Emitter.Emit();
    emitter.EmitBytecode(out, u.lso);
    bytes := Some(emitter.out);
  }

  /** `script` is a reading of the text that keeps every rule of the language, with all
      expressions annotated. */
  ghost predicate Reads(u: Setup, text: string, script: Script) {
    var (tokens, errors) := LexText(u.read, text);
    && errors == 0
    && (exists bare :: Grammar.DerivesScript(tokens, bare) && StripScript(bare) == StripScript(script))
    && WellScript(u.ops, Language(u.bi), u.lso, script)
  }

  ghost predicate Readable(u: Setup, text: string) {
    exists script :: Reads(u, text, script)
  }

  /** If the text is a script at all, it calls no function with more than sixteen parameters. */
  ghost predicate Fitting(u: Setup, text: string) {
    forall bare :: Grammar.DerivesScript(LexText(u.read, text).0, bare) ==> CallsFit(bare)
  }

  /** The parser and the grammar, for the text at hand. */
  lemma ParsedText(u: Setup, text: string)
    requires SetupOk(u)
    ensures var tokens := LexText(u.read, text).0;
      var parsed := ParseSpec.ParseScript(tokens, u.maxErrors);
      && ProperScript(parsed.v)
      && (parsed.errs == 0 ==> Grammar.DerivesScript(tokens, parsed.v))
      && (forall bare :: Grammar.DerivesScript(tokens, bare) ==> parsed.errs == 0 && parsed.v == bare)
  {
    hide LexText, ParseSpec.ParseScript, TablesOk, Grammar.DerivesScript, ProperScript;
    var tokens := LexText(u.read, text).0;
    var parsed := ParseSpec.ParseScript(tokens, u.maxErrors);
    ParsedScriptProper(tokens, u.maxErrors);
    if parsed.errs == 0 {
      ParseComplete.ErrorExactly(tokens, u.maxErrors);
      var bare :| Grammar.DerivesScript(tokens, bare);
      ParseComplete.ParserExact(tokens, u.maxErrors, bare);
    }
    forall bare | Grammar.DerivesScript(tokens, bare)
      ensures parsed.errs == 0 && parsed.v == bare
    {
      ParseComplete.ParserExact(tokens, u.maxErrors, bare);
    }
  }

  /** Bytes that are written for a text that keeps the rules are the file of its reading, with
      the initialisers folded. */
  lemma CompiledAsRead(u: Setup, text: string, script: Script)
    requires SetupOk(u) && Reads(u, text, script) && Compile(u, text).Some?
    ensures Compile(u, text) == Some(Slbc.FileBytes(FoldInits(u.ops, u.bi, script), u.lso))
  {
    hide LexText, ParseSpec.ParseScript, CheckScript, Slbc.FileBytes, WellScript, StripScript, FoldInits, TablesOk,
         Grammar.DerivesScript, ProperScript;
    ParsedText(u, text);
    var parsed := ParseSpec.ParseScript(LexText(u.read, text).0, u.maxErrors);
    AcceptedAsRead(u.ops, u.bi, u.lso, parsed.v, script);
  }

  /** Bytes are written for a text in which no function with more than sixteen parameters is
      called exactly when it can be read as a script of the grammar that keeps every rule;
      and then they are the file of that script, its initialisers folded. */
  lemma CompileExact(u: Setup, text: string)
    requires SetupOk(u) && Fitting(u, text)
    ensures Compile(u, text).Some? <==> Readable(u, text)
    ensures forall script :: Reads(u, text, script) ==>
              Compile(u, text) == Some(Slbc.FileBytes(FoldInits(u.ops, u.bi, script), u.lso))
  {
    hide LexText, ParseSpec.ParseScript, CheckScript, Slbc.FileBytes, WellScript, StripScript, FoldInits, TablesOk,
         Grammar.DerivesScript, ProperScript, CallsFit;
    var (tokens, errors) := LexText(u.read, text);
    var parsed := ParseSpec.ParseScript(tokens, u.maxErrors);
    ParsedText(u, text);
    if parsed.errs == 0 {
      DecidedByRules(u.ops, u.bi, u.lso, parsed.v);
      if errors == 0 && CheckScript(u.ops, u.bi, u.lso, parsed.v).errs == 0 {
        var script :| StripScript(script) == StripScript(parsed.v) && WellScript(u.ops, Language(u.bi), u.lso, script);
        assert Reads(u, text, script);
      }
    }
  }

  /** Without that condition: bytes are written whatever memory holds exactly when the text
      has a reading that keeps the rules and in which memory judges no argument. */
  lemma CompileWhateverMemory(u: Setup, text: string)
    requires SetupOk(u)
    ensures (forall cell :: Compile(u.(bi := Memory(u.bi, cell)), text).Some?)
      <==> exists script :: Reads(u, text, script) && ScriptCovered(script)
  {
    hide LexText, ParseSpec.ParseScript, CheckScript, Slbc.FileBytes, WellScript, StripScript, TablesOk,
         Grammar.DerivesScript, ProperScript, ScriptCovered;
    var (tokens, errors) := LexText(u.read, text);
    var parsed := ParseSpec.ParseScript(tokens, u.maxErrors);
    ParsedText(u, text);
    AcceptedWhateverMemory(u.ops, u.bi, u.lso, parsed.v);
    if forall cell :: Compile(u.(bi := Memory(u.bi, cell)), text).Some? {
      forall cell
        ensures Accepts(u.ops, Memory(u.bi, cell), u.lso, parsed.v)
      {
        assert Compile(u.(bi := Memory(u.bi, cell)), text).Some?;
      }
      assert Compile(u.(bi := Memory(u.bi, HOSTILE.cell)), text).Some?;
      var script :| StripScript(script) == StripScript(parsed.v) && WellScript(u.ops, Language(u.bi), u.lso, script)
                    && ScriptCovered(script);
      assert Reads(u, text, script);
    }
    if script :| Reads(u, text, script) && ScriptCovered(script) {
      assert StripScript(script) == StripScript(parsed.v);
      forall cell
        ensures Compile(u.(bi := Memory(u.bi, cell)), text).Some?
      {
        assert Accepts(u.ops, Memory(u.bi, cell), u.lso, parsed.v);
      }
    }
  }

  /** What is written can be read back: within the field widths, decoding the file gives the
      script that the text stands for, whatever follows the file. */
  lemma CompileDecodes(u: Setup, text: string, script: Script, bytes: seq<Byte>, suffix: seq<Byte>)
    requires SetupOk(u) && Reads(u, text, script) && Compile(u, text) == Some(bytes)
    requires SlbcProofs.Fits(FoldInits(u.ops, u.bi, script))
    ensures SlbcProofs.ReadsBack(bytes, suffix, FoldInits(u.ops, u.bi, script), u.lso)
  {
    hide Compile, Reads, SetupOk, SlbcProofs.Fits, SlbcProofs.ReadsBack, Slbc.FileBytes, FoldInits;
    CompiledAsRead(u, text, script);
    SlbcExact.RoundTripExactly(FoldInits(u.ops, u.bi, script), u.lso, suffix);
  }

  /** `text` is the script written out, with every token one that is lexed back. */
  ghost predicate IsTextOf(u: Setup, show: Bits64 -> string, sc: Script, text: string) {
    var tokens := ScriptPrinter.PrintScript(sc);
    && Printer.Writable(sc) && LexRender.AllOk(u.read, show, tokens)
    && LexRender.LinesGrow(tokens, 1) && text == LexRender.RenderTokens(show, tokens, 1)
  }

  /** A script written out as text, in which no function with more than sixteen parameters is
      called, compiles exactly when it keeps the rules. */
  lemma PrintedCompiles(u: Setup, show: Bits64 -> string, sc: Script, text: string)
    requires SetupOk(u) && IsTextOf(u, show, sc, text) && CallsFit(sc)
    ensures Compile(u, text).Some? <==> KeepsRules(u.ops, u.bi, u.lso, sc)
  {
    hide LexText, ParseSpec.ParseScript, CheckScript, Slbc.FileBytes, WellScript, StripScript, TablesOk,
         LexRender.RenderTokens, ScriptPrinter.PrintScript, Printer.Writable, LexRender.LinesGrow, LexRender.AllOk,
         ProperScript, CallsFit, KeepsRules;
    var tokens := ScriptPrinter.PrintScript(sc);
    LexRender.LexUndoesRender(u.read, show, tokens);
    PrintExact.ParseUndoesPrint(sc, u.maxErrors);
    ParsedScriptProper(tokens, u.maxErrors);
    DecidedByRules(u.ops, u.bi, u.lso, sc);
  }

  // ---------------------------------------------------------- from files to bytes

  /** The state a run on files starts in, with the macros given on the command line. */
  function Initially(macros: Macros.Table): Conditionals.Flat {
    CondRefines.With(Conditionals.Core(macros, [], 0), [])
  }

  /** The bytes written for a file; none if it cannot be read or any phase reports an error. */
  function Build(u: Setup, fs: PreprocSpec.Files, macros: Macros.Table, path: string): Option<seq<Byte>> {
    var r := PreprocSpec.ProcessFile(fs, path, 0, Initially(macros));
    if !r.ok || r.flat.core.errs > 0 then None else Compile(u, LineFidelity.Render(r.flat.core.out))
  }

  method BuildFile(u: Setup, hash: string -> nat, fs: PreprocSpec.Files, macros: Macros.Table, path: string)
    returns (bytes: Option<seq<Byte>>)
    requires u.bi.beyond.FromMemory?
    ensures bytes == Build(u, fs, macros, path)
  {
    hide PreprocSpec.ProcessFile, Compile, LineFidelity.Render;
    var pp := new Preproc.Preprocessor(fs, macros);
    var ok := pp.ProcessFile(path);
    if !ok || pp.errors > 0 { return None; }
    bytes := Run(u, hash, LineFidelity.Render(pp.out));
  }

  /** Every marker fits the buffer it is written into. */
  predicate MarkersFit(out: seq<Conditionals.OutLine>) {
    forall l :: l in out && l.Marker? ==> |LineFidelity.RenderLine(l)| < LineFidelity.MARKER_LIMIT
  }

  /** What the conditional groups of a file and of all that it includes keep, where they are
      well nested and nest at most 31 deep. */
  ghost predicate Keeps(fs: PreprocSpec.Files, trees: map<string, seq<Conditionals.Item>>, macros: Macros.Table,
                        path: string, kept: Conditionals.Core) {
    && PreprocSpec.Grouped(fs, trees) && path in fs.text
    && PreprocSpec.FileDepth(fs, trees, path, 0) <= Conditionals.MAX_FRAMES
    && kept == PreprocSpec.FileMeaning(fs, trees, path, 0, Conditionals.Core(macros, [], 0))
  }

  /** A file of well-nested groups in which no marker is too long for its buffer, and no
      function with more than sixteen parameters is called, is compiled exactly when the lines
      that the groups keep hold no error and can be read as a script that keeps every rule; and
      then its bytes are the file of that script. */
  lemma BuildExact(u: Setup, fs: PreprocSpec.Files, trees: map<string, seq<Conditionals.Item>>, macros: Macros.Table,
                   path: string, kept: Conditionals.Core, script: Script)
    requires SetupOk(u) && Keeps(fs, trees, macros, path, kept)
    requires MarkersFit(kept.out) && Fitting(u, LineFidelity.Render(kept.out))
    ensures Build(u, fs, macros, path).Some? <==> kept.errs == 0 && Readable(u, LineFidelity.Render(kept.out))
    ensures kept.errs == 0 && Reads(u, LineFidelity.Render(kept.out), script) ==>
              Build(u, fs, macros, path) == Some(Slbc.FileBytes(FoldInits(u.ops, u.bi, script), u.lso))
  {
    hide Compile, Reads, Readable, Fitting, SetupOk, PreprocSpec.ProcessFile, PreprocSpec.FileMeaning,
         PreprocSpec.FileDepth, PreprocSpec.Grouped, LineFidelity.Render, Slbc.FileBytes, FoldInits, MarkersFit;
    PreprocSpec.FileMeans(fs, trees, path, 0, Conditionals.Core(macros, [], 0), []);
    assert PreprocSpec.ProcessFile(fs, path, 0, Initially(macros)).flat.core == kept;
    CompileExact(u, LineFidelity.Render(kept.out));
  }
}
