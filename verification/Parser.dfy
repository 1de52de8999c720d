/** The parser as the compiler runs it: two tokens of state, overwritten as it advances,
    and loops that grow trees and lists in place.  Each method is tied to ParseSpec. */
module Parser {
  import opened Syntax
  import opened ParseSpec

  function TokenAt(ts: seq<LToken>, i: nat): Option<LToken> {
    if i < |ts| then Some(ts[i]) else None
  }

  /** A list is its first expression, and after a comma the rest. */
  lemma ListStep(ts: seq<LToken>, i: nat)
    requires i <= |ts|
    ensures var e, r := ParseLevel(ts, i, 0), ParseList(ts, i);
      if AtTok(ts, e.next, TkComma) then
        var es := ParseList(ts, e.next + 1);
        r == Parsed([e.v] + es.v, es.next, e.errs + es.errs)
      else r == Parsed([e.v], e.next, e.errs)
  {
    hide ParseLevel;
  }

  lemma ParamsStep(ts: seq<LToken>, i: nat)
    requires i <= |ts|
    ensures if !AtType(ts, i) then ParseParams(ts, i) == Parsed([], i, 1)
      else if !AtIdent(ts, i + 1) then ParseParams(ts, i) == Parsed([], i + 1, 1)
      else
        var p := Param(TypeOfKw(ts[i].tok.kw), ts[i + 1].tok.id);
        if AtTok(ts, i + 2, TkComma) then
          var ps := ParseParams(ts, i + 3);
          ParseParams(ts, i) == Parsed([p] + ps.v, ps.next, ps.errs)
        else ParseParams(ts, i) == Parsed([p], i + 2, 0)
  {
  }

  lemma EventsStep(ts: seq<LToken>, i: nat)
    requires i <= |ts|
    ensures if i == |ts| || AtTok(ts, i, TkRBrace) then ParseEvents(ts, i) == Parsed([], i, 0)
      else
        var e := ParseEvent(ts, i);
        if e.v.None? then ParseEvents(ts, i) == Parsed([], SkipBraces(ts, e.next, 0), e.errs)
        else
          var es := ParseEvents(ts, e.next);
          ParseEvents(ts, i) == Parsed([e.v.value] + es.v, es.next, e.errs + es.errs)
  {
    hide ParseEvent, SkipBraces;
  }

  lemma StmtsStep(ts: seq<LToken>, i: nat)
    requires i <= |ts|
    ensures if i == |ts| || AtTok(ts, i, TkRBrace) then ParseStmts(ts, i) == Parsed([], i, 0)
      else
        var s := ParseStmt(ts, i);
        var ss := ParseStmts(ts, s.next);
        ParseStmts(ts, i) == Parsed([s.v] + ss.v, ss.next, s.errs + ss.errs)
  {
    hide ParseStmt;
  }

  lemma Append(a: seq<Expr>, b: seq<Expr>, c: seq<Expr>)
    ensures a + (b + c) == (a + b) + c
  {
  }

  class Parse {
    const toks: seq<LToken>
    const maxErrors: int
    var cur: Option<LToken>
    var peek: Option<LToken>
    var read: nat
    var errors: nat
    /** Position of `cur` in `toks`. */
    ghost var pos: nat

    ghost predicate Valid()
      reads this
    {
      pos <= |toks| && cur == TokenAt(toks, pos) && peek == TokenAt(toks, pos + 1) &&
      read == if pos + 2 <= |toks| then pos + 2 else |toks|
    }

    constructor (toks: seq<LToken>, maxErrors: int)
      ensures Valid() && this.toks == toks && this.maxErrors == maxErrors && pos == 0 && errors == 0
    {
      this.toks, this.maxErrors := toks, maxErrors;
      cur, peek := TokenAt(toks, 0), TokenAt(toks, 1);
      read := if 2 <= |toks| then 2 else |toks|;
      errors := 0;
      pos := 0;
    }

    // ------------------------------------------------------------ the cursor

    /** The lexer's next token, or end of file again. */
    method NextToken() returns (t: Option<LToken>)
      requires read <= |toks|
      modifies this`read
      ensures t == TokenAt(toks, old(read))
      ensures read == if old(read) < |toks| then old(read) + 1 else old(read)
    {
      t := TokenAt(toks, read);
      if t.Some? { read := read + 1; }
    }

    method Step()
      requires Valid()
      modifies this`cur, this`peek, this`read, this`pos
      ensures Valid() && pos == Advance(toks, old(pos))
    {
      cur := peek;
      peek := NextToken();
      pos := Advance(toks, pos);
    }

    predicate At(t: Token)
      requires Valid()
      reads this
      ensures At(t) == AtTok(toks, pos, t)
    {
      cur.Some? && cur.value.tok == t
    }

    predicate OnType()
      requires Valid()
      reads this
      ensures OnType() == AtType(toks, pos)
    {
      cur.Some? && cur.value.tok.TkType?
    }

    predicate OnIdent()
      requires Valid()
      reads this
      ensures OnIdent() == AtIdent(toks, pos)
    {
      cur.Some? && cur.value.tok.TkIdent?
    }

    predicate PeekType()
      requires Valid()
      reads this
      ensures PeekType() == AtType(toks, pos + 1)
    {
      peek.Some? && peek.value.tok.TkType?
    }

    function Line(): int
      requires Valid()
      reads this
      ensures Line() == LineAt(toks, pos)
    {
      if cur.Some? then cur.value.line else 0
    }

    /** The parser did what `r` says, starting with `before` errors. */
    ghost predicate Did<T(!new)>(r: Parsed<T>, v: T, before: nat)
      reads this
    {
      Valid() && v == r.v && pos == r.next && errors == before + r.errs
    }

    method Eat(t: Token) returns (ok: bool)
      requires Valid()
      modifies this`cur, this`peek, this`read, this`pos
      ensures Valid() && ok == AtTok(toks, old(pos), t)
      ensures pos == if ok then old(pos) + 1 else old(pos)
    {
      ok := At(t);
      if ok { Step(); }
    }

    method Error()
      modifies this`errors
      ensures errors == old(errors) + 1
    {
      errors := errors + 1;
    }

    method Want(t: Token)
      requires Valid()
      modifies this
      ensures Did(Expect(toks, old(pos), t), (), old(errors))
    {
      var ok := Eat(t);
      if !ok { Error(); }
    }

    // ------------------------------------------------------------ expressions

    method ParseAssign() returns (e: Expr)
      requires Valid()
      modifies this
      ensures Did(ParseLevel(toks, old(pos), 0), e, old(errors))
      decreases |toks| - pos, 16
    {
      hide LevelTail, PostfixTail, ParsePrimary;
      e := ParseBinary(1);
      if cur.Some? && cur.value.tok.TkOp? && IsAssignOp(cur.value.tok.op) {
        var op := cur.value.tok.op;
        Step();
        var r := ParseAssign();
        e := Fresh(Assign(op, e, r));
      }
    }

    /** The ten left-associative levels: one loop, with the operators of level `k`. */
    method ParseBinary(k: nat) returns (l: Expr)
      requires Valid() && 1 <= k <= 11
      modifies this
      ensures Did(ParseLevel(toks, old(pos), k), l, old(errors))
      decreases |toks| - pos, 15 - k
    {
      hide PostfixTail, ParsePrimary;
      if k == LEVEL_UNARY {
        l := ParseUnary();
        return;
      }
      ghost var start, before := pos, errors;
      l := ParseBinary(k + 1);
      assert LevelGoal(start, before, k, l);
      while cur.Some? && cur.value.tok.TkOp? && BinaryLevel(cur.value.tok.op) == k
        invariant Valid() && start <= pos && LevelGoal(start, before, k, l)
        invariant start < |toks| ==> start < pos
        decreases |toks| - pos
      {
        var op := cur.value.tok.op;
        Step();
        var r := ParseBinary(k + 1);
        l := Fresh(Binary(op, l, r));
      }
    }

    /** What is still to be read completes what the level should yield. */
    ghost predicate LevelGoal(start: nat, before: nat, k: nat, l: Expr)
      requires start <= |toks| && 1 <= k <= 10 && Valid()
      reads this
    {
      var goal, rest := ParseLevel(toks, start, k), LevelTail(toks, pos, k, l);
      goal.v == rest.v && goal.next == rest.next && before + goal.errs == errors + rest.errs
    }

    method ParseUnary() returns (e: Expr)
      requires Valid()
      modifies this
      ensures Did(ParseLevel(toks, old(pos), 11), e, old(errors))
      decreases |toks| - pos, 3
    {
      hide LevelTail, PostfixTail, ParsePrimary;
      if cur.Some? && cur.value.tok.TkOp? && IsUnaryOp(cur.value.tok.op) {
        var op := cur.value.tok.op;
        Step();
        var x := ParseUnary();
        e := Fresh(Unary(op, x));
      } else {
        e := ParseCastOrPrimary();
      }
    }

    method ParseCastOrPrimary() returns (e: Expr)
      requires Valid() && !AtUnaryOp(toks, pos)
      modifies this
      ensures Did(ParseLevel(toks, old(pos), 11), e, old(errors))
      decreases |toks| - pos, 2
    {
      hide LevelTail, PostfixTail, ParsePrimary;
      if At(TkLParen) && PeekType() {
        Step();
        var t := TypeOfKw(cur.value.tok.kw);
        Step();
        Want(TkRParen);
        var x := ParseUnary();
        e := Node(t, false, Cast(t, x));
      } else {
        var p := ParsePrimaryExpr();
        e := ParsePostfix(p);
      }
    }

    method ParsePrimaryExpr() returns (e: Expr)
      requires Valid()
      modifies this
      ensures Did(ParsePrimary(toks, old(pos)), e, old(errors))
      ensures old(pos) < |toks| ==> old(pos) < pos
      decreases |toks| - pos, 1
    {
      hide ParseLevel, ParseVector, ParseListUntil;
      if cur.Some? && cur.value.tok.TkInt? {
        e := Node(TInteger, false, IntLit(cur.value.tok.i));
        Step();
      } else if cur.Some? && cur.value.tok.TkFloat? {
        e := Node(TFloat, false, FloatLit(cur.value.tok.f));
        Step();
      } else if cur.Some? && cur.value.tok.TkString? {
        e := Node(TString, false, StringLit(cur.value.tok.s));
        Step();
      } else if OnIdent() {
        e := Fresh(Ident(cur.value.tok.id));
        Step();
      } else if At(TkLParen) {
        e := ParseParens();
      } else if At(TkOp(OpLt)) {
        e := ParseVectorOrRotation();
      } else if At(TkLBrack) {
        e := ParseListLiteral();
      } else {
        Error();
        e := ERROR_EXPR;
        Step();
      }
    }

    method ParseParens() returns (e: Expr)
      requires Valid() && At(TkLParen)
      modifies this
      ensures Did(ParsePrimary(toks, old(pos)), e, old(errors))
      decreases |toks| - pos, 0
    {
      hide ParseLevel;
      Step();
      e := ParseAssign();
      Want(TkRParen);
    }

    method ParseVectorOrRotation() returns (e: Expr)
      requires Valid() && At(TkOp(OpLt))
      modifies this
      ensures Did(ParseVector(toks, old(pos)), e, old(errors))
      decreases |toks| - pos, 0
    {
      hide ParseLevel, Expect, Parse.Valid, Parse.At;
      Step();
      var x := ParseBinary(LEVEL_SHIFT);
      Want(TkComma);
      var y := ParseBinary(LEVEL_SHIFT);
      Want(TkComma);
      var z := ParseBinary(LEVEL_SHIFT);
      var isRot := Eat(TkComma);
      if isRot {
        var w := ParseBinary(LEVEL_SHIFT);
        Want(TkOp(OpGt));
        e := Node(TRotation, false, RotLit(x, y, z, w));
      } else {
        Want(TkOp(OpGt));
        e := Node(TVector, false, VectorLit(x, y, z));
      }
    }

    /** Assignments up to the one that no comma follows, unless `close` comes first. */
    method ParseItems(close: Token) returns (items: seq<Expr>)
      requires Valid()
      modifies this
      ensures Did(ParseListUntil(toks, old(pos), close), items, old(errors))
      decreases |toks| - pos, 17
    {
      hide ParseLevel, ParseList;
      items := [];
      if At(close) { return; }
      ghost var goal, before := ParseList(toks, pos), errors;
      var more := true;
      while more
        invariant Valid() && old(pos) <= pos
        invariant more ==> var rest := ParseList(toks, pos);
                           goal.v == items + rest.v && goal.next == rest.next &&
                           before + goal.errs == errors + rest.errs
        invariant !more ==> Did(goal, items, before)
        decreases more, |toks| - pos
      {
        ListStep(toks, pos);
        ghost var rest, soFar := ParseList(toks, pos), items;
        var e := ParseAssign();
        items := items + [e];
        more := Eat(TkComma);
        if more {
          Append(soFar, [e], ParseList(toks, pos).v);
        }
      }
    }

    method ParseListLiteral() returns (e: Expr)
      requires Valid() && At(TkLBrack)
      modifies this
      ensures Did(ParsePrimary(toks, old(pos)), e, old(errors))
      decreases |toks| - pos, 0
    {
      hide ParseLevel, ParseListUntil;
      Step();
      var items := ParseItems(TkRBrack);
      Want(TkRBrack);
      e := Node(TList, false, ListLit(items));
    }

    /** A dot and the member after it, if there is one. */
    method SelectionStep(base: Expr) returns (next: Expr, more: bool)
      requires Valid() && At(TkDot)
      modifies this
      ensures Valid()
      ensures more ==> old(pos) < pos && PostfixGoal(PostfixTail(toks, old(pos), base), old(errors), next)
      ensures !more ==> Did(PostfixTail(toks, old(pos), base), next, old(errors))
    {
      hide ParseListUntil;
      next, more := base, true;
      Step();
      if !OnIdent() {
        Error();
        more := false;
        return;
      }
      var id := cur.value.tok.id;
      Step();
      var m := '\0';
      if |id| == 1 && id[0] != '\0' { m := id[0]; } else { Error(); }
      next := Fresh(Member(base, m));
    }

    /** One round of the postfix loop; `more` says whether to go on. */
    method PostfixStep(base: Expr) returns (next: Expr, more: bool)
      requires Valid()
      modifies this
      ensures Valid()
      ensures more ==> old(pos) < pos && PostfixGoal(PostfixTail(toks, old(pos), base), old(errors), next)
      ensures !more ==> Did(PostfixTail(toks, old(pos), base), next, old(errors))
      decreases |toks| - pos, 0
    {
      hide ParseListUntil, Parse.At, Parse.Valid;
      next, more := base, true;
      if At(TkLParen) && base.kind.Ident? {
        Step();
        var args := ParseItems(TkRParen);
        Want(TkRParen);
        next := Fresh(Call(base.kind.name, args));
        return;
      }
      if At(TkDot) {
        next, more := SelectionStep(base);
        return;
      }
      if At(TkOp(OpInc)) {
        Step();
        next := Fresh(Postfix(OpInc, base));
        return;
      }
      if At(TkOp(OpDec)) {
        Step();
        next := Fresh(Postfix(OpDec, base));
        return;
      }
      more := false;
    }

    /** The postfix operators still to be read lead from `base` to the goal. */
    ghost predicate PostfixGoal(goal: Parsed<Expr>, before: nat, base: Expr)
      requires Valid()
      reads this
    {
      var rest := PostfixTail(toks, pos, base);
      goal.v == rest.v && goal.next == rest.next && before + goal.errs == errors + rest.errs
    }

    method ParsePostfix(first: Expr) returns (base: Expr)
      requires Valid()
      modifies this
      ensures Did(PostfixTail(toks, old(pos), first), base, old(errors))
      decreases |toks| - pos, 1
    {
      hide PostfixTail;
      base := first;
      ghost var goal, before := PostfixTail(toks, pos, first), errors;
      var more := true;
      while more
        invariant Valid() && old(pos) <= pos
        invariant if more then PostfixGoal(goal, before, base) else Did(goal, base, before)
        decreases more, |toks| - pos
      {
        base, more := PostfixStep(base);
      }
    }

    // ------------------------------------------------------------- statements

    method ParseBraces() returns (s: Stmt)
      requires Valid() && At(TkLBrace)
      modifies this
      ensures Did(ParseBlock(toks, old(pos)), s, old(errors))
      decreases |toks| - pos, 1
    {
      hide ParseStmt, ParseStmts;
      var line := Line();
      Want(TkLBrace);
      var stmts := [];
      ghost var goal, before := ParseStmts(toks, pos), errors;
      while cur.Some? && !At(TkRBrace)
        invariant Valid() && old(pos) < pos
        invariant var rest := ParseStmts(toks, pos);
                  goal.v == stmts + rest.v && goal.next == rest.next && before + goal.errs == errors + rest.errs
        decreases |toks| - pos
      {
        ghost var soFar := stmts;
        StmtsStep(toks, pos);
        var s := ParseStatement();
        stmts := stmts + [s];
        assert soFar + ([s] + ParseStmts(toks, pos).v) == stmts + ParseStmts(toks, pos).v;
      }
      StmtsStep(toks, pos);
      assert stmts + [] == stmts;
      Want(TkRBrace);
      s := Stmt(line, Block(stmts));
    }

    method ParseInitializer() returns (e: Option<Expr>)
      requires Valid()
      modifies this
      ensures Did(ParseInit(toks, old(pos)), e, old(errors))
    {
      hide ParseLevel;
      e := None;
      var eq := Eat(TkOp(OpAssign));
      if eq {
        var x := ParseAssign();
        e := Some(x);
      }
    }

    method ParseLocalDecl() returns (s: Stmt)
      requires Valid() && OnType()
      modifies this
      ensures Did(ParseDecl(toks, old(pos)), s, old(errors))
    {
      hide ParseInit;
      var line := Line();
      var t := TypeOfKw(cur.value.tok.kw);
      Step();
      if !OnIdent() {
        Error();
        ghost var goal := SkipTo(toks, pos, TkSemi);
        while cur.Some? && !At(TkSemi)
          invariant Valid() && goal == SkipTo(toks, pos, TkSemi) && errors == old(errors) + 1
          decreases |toks| - pos
        {
          Step();
        }
        assert pos == goal;
        var _ := Eat(TkSemi);
        return Stmt(line, Empty);
      }
      var name := cur.value.tok.id;
      Step();
      var init := ParseInitializer();
      Want(TkSemi);
      s := Stmt(line, Decl(t, name, init));
    }

    method ParseParenCondition() returns (e: Expr)
      requires Valid()
      modifies this
      ensures Did(ParseCondition(toks, old(pos)), e, old(errors))
    {
      hide ParseLevel;
      Want(TkLParen);
      e := ParseAssign();
      Want(TkRParen);
    }

    method ParseIfStmt() returns (s: Stmt)
      requires Valid() && At(TkIf)
      modifies this
      ensures Did(ParseIf(toks, old(pos)), s, old(errors))
      decreases |toks| - pos, 0
    {
      hide ParseCondition, ParseStmt;
      var line := Line();
      Step();
      var cond := ParseParenCondition();
      var thn := ParseStatement();
      var els := None;
      var hasElse := Eat(TkElse);
      if hasElse {
        var x := ParseStatement();
        els := Some(x);
      }
      s := Stmt(line, If(cond, thn, els));
    }

    method ParseWhileStmt() returns (s: Stmt)
      requires Valid() && At(TkWhile)
      modifies this
      ensures Did(ParseWhile(toks, old(pos)), s, old(errors))
      decreases |toks| - pos, 0
    {
      hide ParseCondition, ParseStmt;
      var line := Line();
      Step();
      var cond := ParseParenCondition();
      var body := ParseStatement();
      s := Stmt(line, While(cond, body));
    }

    method ParseDoStmt() returns (s: Stmt)
      requires Valid() && At(TkDo)
      modifies this
      ensures Did(ParseDo(toks, old(pos)), s, old(errors))
      decreases |toks| - pos, 0
    {
      hide ParseCondition, ParseStmt;
      var line := Line();
      Step();
      var body := ParseStatement();
      Want(TkWhile);
      var cond := ParseParenCondition();
      Want(TkSemi);
      s := Stmt(line, DoWhile(body, cond));
    }

    method ParseOptional(stop: Token) returns (e: Option<Expr>)
      requires Valid()
      modifies this
      ensures Did(ParseOptExpr(toks, old(pos), stop), e, old(errors))
    {
      hide ParseLevel;
      e := None;
      if !At(stop) {
        var x := ParseAssign();
        e := Some(x);
      }
    }

    method ParseForStmt() returns (s: Stmt)
      requires Valid() && At(TkFor)
      modifies this
      ensures Did(ParseFor(toks, old(pos)), s, old(errors))
      decreases |toks| - pos, 0
    {
      hide ParseListUntil, ParseOptExpr, ParseStmt, Expect;
      var line := Line();
      Step();
      Want(TkLParen);
      var inits := ParseItems(TkSemi);
      Want(TkSemi);
      var test := ParseOptional(TkSemi);
      Want(TkSemi);
      var posts := ParseItems(TkRParen);
      Want(TkRParen);
      var body := ParseStatement();
      s := Stmt(line, For(inits, test, posts, body));
    }

    method ParseReturnStmt() returns (s: Stmt)
      requires Valid() && At(TkReturn)
      modifies this
      ensures Did(ParseReturn(toks, old(pos)), s, old(errors))
    {
      hide ParseOptExpr;
      var line := Line();
      Step();
      var e := ParseOptional(TkSemi);
      Want(TkSemi);
      s := Stmt(line, Return(e));
    }

    method ParseLabelName() returns (name: Option<string>)
      requires Valid()
      modifies this
      ensures Did(ParseName(toks, old(pos)), name, old(errors))
    {
      name := None;
      if !OnIdent() { Error(); }
      if OnIdent() {
        name := Some(cur.value.tok.id);
        Step();
      }
    }

    method ParseJumpStmt() returns (s: Stmt)
      requires Valid() && At(TkJump)
      modifies this
      ensures Did(ParseJump(toks, old(pos)), s, old(errors))
    {
      var line := Line();
      Step();
      var name := ParseLabelName();
      Want(TkSemi);
      s := Stmt(line, Jump(name));
    }

    method ParseLabelStmt() returns (s: Stmt)
      requires Valid() && At(TkAt)
      modifies this
      ensures Did(ParseLabel(toks, old(pos)), s, old(errors))
    {
      var line := Line();
      Step();
      var name := ParseLabelName();
      Want(TkSemi);
      s := Stmt(line, Label(name));
    }

    method ParseStateChangeStmt() returns (s: Stmt)
      requires Valid() && At(TkState)
      modifies this
      ensures Did(ParseStateChange(toks, old(pos)), s, old(errors))
    {
      var line := Line();
      Step();
      var name: Option<string> := None;
      if At(TkDefault) {
        name := Some("default");
        Step();
      } else {
        name := ParseLabelName();
      }
      Want(TkSemi);
      s := Stmt(line, StateChange(name));
    }

    method ParsePrintStmt() returns (s: Stmt)
      requires Valid() && At(TkPrint)
      modifies this
      ensures Did(ParsePrint(toks, old(pos)), s, old(errors))
    {
      hide ParseCondition;
      var line := Line();
      Step();
      var e := ParseParenCondition();
      Want(TkSemi);
      s := Stmt(line, ExprStmt(Fresh(Call("print", [e]))));
    }

    method ParseExpressionStmt() returns (s: Stmt)
      requires Valid()
      modifies this
      ensures Did(ParseExprStmt(toks, old(pos)), s, old(errors))
    {
      hide ParseLevel;
      var line := Line();
      var e := ParseAssign();
      Want(TkSemi);
      s := Stmt(line, ExprStmt(e));
    }

    method ParseStatement() returns (s: Stmt)
      requires Valid()
      modifies this
      ensures Did(ParseStmt(toks, old(pos)), s, old(errors))
      ensures old(pos) < |toks| ==> old(pos) < pos
      decreases |toks| - pos, 2
    {
      hide ParseBlock, ParseDecl, ParseIf, ParseWhile, ParseDo, ParseFor, ParseReturn, ParseJump, ParseLabel,
           ParseStateChange, ParsePrint, ParseExprStmt;
      var line := Line();
      if At(TkLBrace) { s := ParseBraces(); }
      else if At(TkSemi) { Step(); s := Stmt(line, Empty); }
      else if OnType() { s := ParseLocalDecl(); }
      else if At(TkIf) { s := ParseIfStmt(); }
      else if At(TkWhile) { s := ParseWhileStmt(); }
      else if At(TkDo) { s := ParseDoStmt(); }
      else if At(TkFor) { s := ParseForStmt(); }
      else { s := ParseSimple(); }
    }

    predicate OnCompound()
      requires Valid()
      reads this
    {
      At(TkLBrace) || At(TkSemi) || OnType() || At(TkIf) || At(TkWhile) || At(TkDo) || At(TkFor)
    }

    /** The statements that hold no others. */
    method ParseSimple() returns (s: Stmt)
      requires Valid() && !OnCompound()
      modifies this
      ensures Did(ParseStmt(toks, old(pos)), s, old(errors))
      ensures old(pos) < |toks| ==> old(pos) < pos
    {
      hide ParseBlock, ParseDecl, ParseIf, ParseWhile, ParseDo, ParseFor, ParseReturn, ParseJump, ParseLabel,
           ParseStateChange, ParsePrint, ParseExprStmt, Parse.Valid, Parse.At;
      if At(TkReturn) { s := ParseReturnStmt(); }
      else if At(TkJump) { s := ParseJumpStmt(); }
      else if At(TkAt) { s := ParseLabelStmt(); }
      else if At(TkState) { s := ParseStateChangeStmt(); }
      else if At(TkPrint) { s := ParsePrintStmt(); }
      else { s := ParseExpressionStmt(); }
    }

    // -------------------------------------------------------------- top level

    /** A type and a name. */
    method ParseParam() returns (p: Option<Param>)
      requires Valid()
      modifies this
      ensures Valid()
      ensures AtType(toks, old(pos)) && AtIdent(toks, old(pos) + 1) ==>
                && p == Some(Param(TypeOfKw(toks[old(pos)].tok.kw), toks[old(pos) + 1].tok.id))
                && pos == old(pos) + 2 && errors == old(errors)
      ensures !AtType(toks, old(pos)) ==> p == None && pos == old(pos) && errors == old(errors) + 1
      ensures AtType(toks, old(pos)) && !AtIdent(toks, old(pos) + 1) ==>
                p == None && pos == old(pos) + 1 && errors == old(errors) + 1
    {
      p := None;
      if !OnType() {
        Error();
        return;
      }
      var t := TypeOfKw(cur.value.tok.kw);
      Step();
      if !OnIdent() {
        Error();
        return;
      }
      p := Some(Param(t, cur.value.tok.id));
      Step();
    }

    method ParseParameters() returns (ps: seq<Param>)
      requires Valid()
      modifies this
      ensures Did(ParseParamsUntilParen(toks, old(pos)), ps, old(errors))
    {
      hide ParseParams;
      ps := [];
      if At(TkRParen) { return; }
      ghost var goal, before := ParseParams(toks, pos), errors;
      var more := true;
      while more
        invariant Valid() && old(pos) <= pos
        invariant more ==> var rest := ParseParams(toks, pos);
                           goal.v == ps + rest.v && goal.next == rest.next && before + goal.errs == errors + rest.errs
        invariant !more ==> Did(goal, ps, before)
        decreases more, |toks| - pos
      {
        ParamsStep(toks, pos);
        ghost var rest, soFar := ParseParams(toks, pos), ps;
        var p := ParseParam();
        more := false;
        if p.None? {
          assert ps + [] == ps;
        } else {
          ps := ps + [p.value];
          more := Eat(TkComma);
          if more {
            assert rest.v == [p.value] + ParseParams(toks, pos).v;
            assert soFar + ([p.value] + ParseParams(toks, pos).v) == ps + ParseParams(toks, pos).v;
          }
        }
      }
    }

    method ParseEventDecl() returns (e: Option<Event>)
      requires Valid()
      modifies this
      ensures Did(ParseEvent(toks, old(pos)), e, old(errors))
    {
      hide ParseParamsUntilParen, ParseBlock;
      e := None;
      if !OnIdent() {
        Error();
        return;
      }
      var line, name := Line(), cur.value.tok.id;
      Step();
      Want(TkLParen);
      var params := ParseParameters();
      Want(TkRParen);
      if !At(TkLBrace) {
        Error();
        return;
      }
      var body := ParseBraces();
      e := Some(Event(name, params, body, line));
    }

    /** Scan to the `}` that closes the enclosing braces. */
    method Recover()
      requires Valid()
      modifies this`cur, this`peek, this`read, this`pos
      ensures Valid() && pos == SkipBraces(toks, old(pos), 0)
    {
      var depth := 0;
      while cur.Some?
        invariant Valid() && 0 <= depth && SkipBraces(toks, pos, depth) == SkipBraces(toks, old(pos), 0)
        decreases |toks| - pos
      {
        if At(TkLBrace) { depth := depth + 1; }
        else if At(TkRBrace) {
          if depth == 0 { return; }
          depth := depth - 1;
        }
        Step();
      }
    }

    method ParseEventDecls() returns (es: seq<Event>)
      requires Valid()
      modifies this
      ensures Did(ParseEvents(toks, old(pos)), es, old(errors))
    {
      hide ParseEvent, ParseEvents;
      es := [];
      ghost var goal, before := ParseEvents(toks, pos), errors;
      while cur.Some? && !At(TkRBrace)
        invariant Valid() && old(pos) <= pos
        invariant var rest := ParseEvents(toks, pos);
                  goal.v == es + rest.v && goal.next == rest.next && before + goal.errs == errors + rest.errs
        decreases |toks| - pos
      {
        EventsStep(toks, pos);
        ghost var rest, soFar := ParseEvents(toks, pos), es;
        var e := ParseEventDecl();
        if e.None? {
          Recover();
          assert es + [] == es;
          return;
        }
        es := es + [e.value];
        assert rest.v == [e.value] + ParseEvents(toks, pos).v;
        assert soFar + ([e.value] + ParseEvents(toks, pos).v) == es + ParseEvents(toks, pos).v;
      }
      EventsStep(toks, pos);
      assert es + [] == es;
    }

    /** `default`, or `state` and a name. */
    method ParseStateName() returns (name: Option<string>)
      requires Valid() && (At(TkDefault) || At(TkState))
      modifies this
      ensures Valid()
      ensures AtTok(toks, old(pos), TkDefault) ==>
                name == Some("default") && pos == old(pos) + 1 && errors == old(errors)
      ensures !AtTok(toks, old(pos), TkDefault) && AtIdent(toks, old(pos) + 1) ==>
                name == Some(toks[old(pos) + 1].tok.id) && pos == old(pos) + 2 && errors == old(errors)
      ensures !AtTok(toks, old(pos), TkDefault) && !AtIdent(toks, old(pos) + 1) ==>
                name == None && pos == old(pos) + 1 && errors == old(errors) + 1
    {
      var isDefault := Eat(TkDefault);
      if isDefault { return Some("default"); }
      Step();
      if !OnIdent() {
        Error();
        return None;
      }
      name := Some(cur.value.tok.id);
      Step();
    }

    method ParseStateDecl() returns (s: Option<State>)
      requires Valid() && (At(TkDefault) || At(TkState))
      modifies this
      ensures Did(ParseState(toks, old(pos)), s, old(errors))
    {
      hide ParseEvents;
      s := None;
      var line := Line();
      var isDefault := At(TkDefault);
      var name := ParseStateName();
      if name.None? { return; }
      var open := Eat(TkLBrace);
      if !open {
        Error();
        return;
      }
      var events := ParseEventDecls();
      Want(TkRBrace);
      s := Some(State(name.value, isDefault, events, line));
    }

    method ParseFunction(ret: Type, hasRet: bool, name: string, line: int) returns (d: Option<TopDecl>)
      requires Valid()
      modifies this
      ensures Did(ParseFuncRest(toks, old(pos), ret, hasRet, name, line), d, old(errors))
    {
      hide ParseParamsUntilParen, ParseBlock;
      d := None;
      var params := ParseParameters();
      Want(TkRParen);
      if !At(TkLBrace) {
        Error();
        return;
      }
      var body := ParseBraces();
      d := Some(DFunc(Func(ret, hasRet, name, params, body, line)));
    }

    method ParseTopDecl() returns (d: Option<TopDecl>)
      requires Valid() && cur.Some?
      modifies this
      ensures Did(ParseDeclaration(toks, old(pos)), d, old(errors))
    {
      hide ParseState, ParseFuncRest, ParseInit;
      d := None;
      var line := Line();
      if At(TkDefault) || At(TkState) {
        var s := ParseStateDecl();
        if s.Some? { d := Some(DState(s.value)); }
      } else if OnType() {
        var t := TypeOfKw(cur.value.tok.kw);
        Step();
        if !OnIdent() {
          Error();
          return;
        }
        var name := cur.value.tok.id;
        Step();
        if At(TkLParen) {
          Step();
          d := ParseFunction(t, true, name, line);
        } else {
          var init := ParseInitializer();
          Want(TkSemi);
          d := Some(DGlobal(Global(t, name, init)));
        }
      } else if OnIdent() {
        var name := cur.value.tok.id;
        Step();
        if !At(TkLParen) {
          Error();
          Step();
          return;
        }
        Step();
        d := ParseFunction(TVoid, false, name, line);
      } else {
        Error();
        Step();
      }
    }

    /** The whole script.  Every round consumes a token, so the loop ends on any input. */
    method ParseWholeScript() returns (sc: Script)
      requires Valid() && pos == 0 && errors == 0
      modifies this
      ensures Did(ParseScript(toks, maxErrors), sc, 0)
    {
      hide ParseDeclaration;
      sc := EMPTY_SCRIPT;
      while cur.Some? && errors < maxErrors
        invariant Valid() && ParseTop(toks, pos, sc, errors, maxErrors) == ParseScript(toks, maxErrors)
        decreases |toks| - pos
      {
        var d := ParseTopDecl();
        if d.Some? { sc := AddDecl(sc, d.value); }
      }
    }
  }
}
