/**
 * The statements database/database.go renders for inserts and updates. Each is
 * produced by a text/template; the templates are kept here as data, rendered
 * by a small interpreter of the template features they use (field output,
 * one boolean variable, `if`, `range` over the columns and the `{{-` marker,
 * which trims the whitespace at the end of the text just before it), and the
 * rendering is proved equal to a closed form written as concatenation.
 */
module SqlText {
  import GoStrings

  // ---------------------------------------------------------------------
  // Closed forms.
  // ---------------------------------------------------------------------

  function Map(cols: seq<string>, prefix: string, infix: string): (r: seq<string>)
    ensures |r| == |cols|
    ensures forall i :: 0 <= i < |cols| ==> r[i] == prefix + cols[i] + infix + (if infix == "" then "" else cols[i])
  {
    if cols == [] then []
    else [prefix + cols[0] + infix + (if infix == "" then "" else cols[0])] + Map(cols[1..], prefix, infix)
  }

  function Returning(key: string): string
  {
    if key != "" then "returning " + key else ""
  }

  /** insertSQL(columns, table, key): the columns, then their `:name` placeholders, then the returning clause. */
  function InsertSql(cols: seq<string>, table: string, key: string): string
  {
    "insert into " + table + " (" + GoStrings.Join(cols, ", ") + ") values (" +
    GoStrings.Join(Map(cols, ":", ""), ", ") + ") " + Returning(key)
  }

  /** updateSQL(columns, table, where, key): `col = :col` assignments, the where clause, the returning clause. */
  function UpdateSql(cols: seq<string>, table: string, where: string, key: string): string
  {
    "update " + table + " set " + GoStrings.Join(Map(cols, "", " = :"), ", ") +
    " where " + where + " " + Returning(key)
  }

  // ---------------------------------------------------------------------
  // The templates and their interpreter.
  // ---------------------------------------------------------------------

  /** The template constructs the two statements use. */
  datatype Node =
    | Text(s: string)              // literal text
    | Trim                         // the `-` of a following `{{- ...}}`
    | TableName                    // {{.TableName}}
    | KeyColumn                    // {{.KeyColumn}}
    | WhereClause                  // {{.WhereClause}}
    | ColVar                       // {{$f}}
    | DeclareComma                 // {{$putComa := false}}
    | SetComma                     // {{$putComa = true}}
    | IfComma(body: seq<Node>)     // {{if $putComa}}...{{end}}
    | IfKey(body: seq<Node>)       // {{if ne .KeyColumn ""}}...{{end}}
    | RangeColumns(body: seq<Node>) // {{range $i, $f := .Columns}}...{{end}}

  /** The data the template is executed with. */
  datatype Env = Env(table: string, columns: seq<string>, key: string, where: string)

  /** The output so far and the template variables. */
  datatype St = St(out: string, comma: bool, col: string)

  predicate IsSpace(c: char)
  {
    c == ' ' || c == '\t' || c == '\n' || c == '\r'
  }

  /** The text with its trailing white space removed. */
  function TrimRight(s: string): (r: string)
    ensures |r| <= |s| && r == s[..|r|]
    ensures r == [] || !IsSpace(r[|r| - 1])
    ensures forall i :: |r| <= i < |s| ==> IsSpace(s[i])
  {
    if s == [] || !IsSpace(s[|s| - 1]) then s else TrimRight(s[..|s| - 1])
  }

  function NodeSize(n: Node): (k: nat)
    ensures k >= 1
    ensures (n.IfComma? || n.IfKey? || n.RangeColumns?) ==> k > SeqSize(n.body)
  {
    match n
    case IfComma(b) => SeqSize(b) + 1
    case IfKey(b) => SeqSize(b) + 1
    case RangeColumns(b) => SeqSize(b) + 1
    case _ => 1
  }

  function SeqSize(ns: seq<Node>): (k: nat)
    ensures k >= 1
    ensures ns != [] ==> k > NodeSize(ns[0]) && k > SeqSize(ns[1..])
  {
    if ns == [] then 1 else NodeSize(ns[0]) + SeqSize(ns[1..])
  }

  /** Executing a node sequence; a Text directly before a Trim loses its trailing space. */
  function RenderSeq(ns: seq<Node>, env: Env, st: St): St
    decreases SeqSize(ns), 0
  {
    if ns == [] then st
    else
      var st' := match ns[0]
        case Text(s) => st.(out := st.out + (if |ns| >= 2 && ns[1] == Trim then TrimRight(s) else s))
        case Trim => st
        case TableName => st.(out := st.out + env.table)
        case KeyColumn => st.(out := st.out + env.key)
        case WhereClause => st.(out := st.out + env.where)
        case ColVar => st.(out := st.out + st.col)
        case DeclareComma => st.(comma := false)
        case SetComma => st.(comma := true)
        case IfComma(b) => if st.comma then RenderSeq(b, env, st) else st
        case IfKey(b) => if env.key != "" then RenderSeq(b, env, st) else st
        case RangeColumns(b) => RenderRange(b, env.columns, env, st);
      RenderSeq(ns[1..], env, st')
  }

  /** One execution of `body` per column, with $f bound to it. */
  function RenderRange(body: seq<Node>, cols: seq<string>, env: Env, st: St): St
    decreases SeqSize(body), |cols|
  {
    if cols == [] then st
    else RenderRange(body, cols[1..], env, RenderSeq(body, env, st.(col := cols[0])))
  }

  function Render(ns: seq<Node>, env: Env): string
  {
    RenderSeq(ns, env, St("", false, "")).out
  }

  /** `{{$putComa = true}} {{- end}}`, the close of both loop bodies. */
  const Close: seq<Node> := [SetComma, Text(" "), Trim]

  /** The loop body of insertSQL's column list, and of its placeholder list when `prefix` is ":". */
  function InsertBody(prefix: string): seq<Node>
  {
    [IfComma([Text(", ")])] + (if prefix == "" then [] else [Text(prefix)]) + [ColVar] + Close
  }

  /** The template of insertSQL, construct by construct. */
  const InsertTemplate: seq<Node> :=
    [Text("insert into "), TableName, Text(" ("),
     DeclareComma, Trim, RangeColumns(InsertBody("")),
     Text(") values ("),
     DeclareComma, Trim, RangeColumns(InsertBody(":")),
     Text(") "),
     IfKey([Text("returning "), KeyColumn])]

  const UpdateBody: seq<Node> := [IfComma([Text(", ")]), ColVar, Text(" = :"), ColVar] + Close

  /** The template of updateSQL, construct by construct. */
  const UpdateTemplate: seq<Node> :=
    [Text("update "), TableName, Text(" set "),
     DeclareComma, Text(" "), Trim, RangeColumns(UpdateBody),
     Text(" where "), WhereClause, Text(" "),
     IfKey([Text("returning "), KeyColumn])]

  // ---------------------------------------------------------------------
  // The templates render the closed forms.
  // ---------------------------------------------------------------------

  /** The parts with ", " before each one, except the first when no comma is pending. */
  function JoinAfter(comma: bool, parts: seq<string>): string
    decreases |parts|
  {
    if parts == [] then "" else (if comma then ", " else "") + parts[0] + JoinAfter(true, parts[1..])
  }

  lemma {:induction false} JoinAfterIsJoin(parts: seq<string>)
    ensures JoinAfter(false, parts) == GoStrings.Join(parts, ", ")
    ensures parts != [] ==> JoinAfter(true, parts) == ", " + GoStrings.Join(parts, ", ")
    decreases |parts|
  {
    if parts != [] {
      JoinAfterIsJoin(parts[1..]);
      if |parts| == 1 {
        assert parts[1..] == [];
      }
    }
  }

  lemma TrimSpace()
    ensures TrimRight(" ") == ""
  {
    assert " "[..0] == "";
  }

  /** `{{$putComa = true}} {{- end}}`: the flag is set and the space is trimmed away. */
  lemma CloseRenders(env: Env, st: St)
    ensures RenderSeq(Close, env, st) == st.(comma := true)
  {
    TrimSpace();
    assert Close[1..] == [Text(" "), Trim];
    assert Close[1..][1..] == [Trim];
    assert [Trim][1..] == [];
    assert st.out + "" == st.out;
  }

  /** `{{$f}}` followed by the close: the column is appended. */
  lemma ColCloseRenders(env: Env, st: St)
    ensures RenderSeq([ColVar] + Close, env, st) == St(st.out + st.col, true, st.col)
  {
    RenderOne(ColVar, Close, env, st);
    assert [ColVar][1..] == [];
    CloseRenders(env, st.(out := st.out + st.col));
  }

  /** `{{if $putComa}}, {{end}}`: ", " exactly when a comma is pending. */
  lemma IfCommaRenders(rest: seq<Node>, env: Env, st: St)
    ensures RenderSeq([IfComma([Text(", ")])] + rest, env, st) ==
      RenderSeq(rest, env, st.(out := st.out + (if st.comma then ", " else "")))
  {
    RenderOne(IfComma([Text(", ")]), rest, env, st);
    assert [IfComma([Text(", ")])][1..] == [];
    if st.comma {
      assert [Text(", ")][1..] == [];
    } else {
      assert st.out + "" == st.out;
    }
  }

  /** One pass of insertSQL's loop body: an optional ", ", the prefix and the column. */
  lemma InsertBodyStep(prefix: string, env: Env, st: St, c: string)
    requires prefix == "" || prefix == ":"
    ensures RenderSeq(InsertBody(prefix), env, st.(col := c)) == St(st.out + (if st.comma then ", " else "") + (prefix + c), true, c)
  {
    var st0 := st.(col := c);
    var sep := if st.comma then ", " else "";
    var st1 := st0.(out := st0.out + sep);
    var mid := (if prefix == "" then [] else [Text(prefix)]) + ([ColVar] + Close);
    assert InsertBody(prefix) == [IfComma([Text(", ")])] + mid;
    IfCommaRenders(mid, env, st0);
    if prefix == "" {
      assert mid == [ColVar] + Close;
      ColCloseRenders(env, st1);
      assert st1.out + c == st.out + sep + (prefix + c);
    } else {
      assert mid == [Text(prefix)] + ([ColVar] + Close);
      RenderText(prefix, [ColVar] + Close, env, st1);
      ColCloseRenders(env, st1.(out := st1.out + prefix));
    }
  }

  lemma {:induction false} InsertRange(prefix: string, cols: seq<string>, env: Env, st: St)
    requires prefix == "" || prefix == ":"
    ensures var r := RenderRange(InsertBody(prefix), cols, env, st);
      r.out == st.out + JoinAfter(st.comma, Map(cols, prefix, "")) && r.comma == (st.comma || cols != [])
    decreases |cols|
  {
    if cols != [] {
      var m := Map(cols, prefix, "");
      var sep := if st.comma then ", " else "";
      InsertBodyStep(prefix, env, st, cols[0]);
      InsertRange(prefix, cols[1..], env, St(st.out + sep + (prefix + cols[0]), true, cols[0]));
      assert m[1..] == Map(cols[1..], prefix, "");
      assert m[0] == prefix + cols[0];
      assert JoinAfter(st.comma, m) == sep + m[0] + JoinAfter(true, m[1..]);
    }
  }

  lemma MapEmpty(cols: seq<string>)
    ensures Map(cols, "", "") == cols
  {
    var m := Map(cols, "", "");
    forall i | 0 <= i < |cols| ensures m[i] == cols[i] {
      assert m[i] == "" + cols[i] + "" + "";
    }
  }

  /** Rendering one Text whose successor is not a Trim appends it unchanged. */
  lemma RenderText(s: string, rest: seq<Node>, env: Env, st: St)
    requires rest == [] || rest[0] != Trim
    ensures RenderSeq([Text(s)] + rest, env, st) == RenderSeq(rest, env, st.(out := st.out + s))
  {
    assert ([Text(s)] + rest)[1..] == rest;
  }

  lemma RenderOne(n: Node, rest: seq<Node>, env: Env, st: St)
    requires !n.Text?
    ensures RenderSeq([n] + rest, env, st) == RenderSeq(rest, env, RenderSeq([n], env, st))
  {
    assert ([n] + rest)[1..] == rest;
    assert [n][1..] == [];
  }

  /** The column list part of insertSQL: `{{$putComa := false}}{{- range}}...{{- end}}`. */
  lemma InsertListRenders(prefix: string, rest: seq<Node>, env: Env, st: St)
    requires prefix == "" || prefix == ":"
    ensures RenderSeq(InsertList(prefix, rest), env, st) ==
      RenderSeq(rest, env, RenderRange(InsertBody(prefix), env.columns, env, st.(comma := false)))
  {
    var ns := [DeclareComma, Trim, RangeColumns(InsertBody(prefix))] + rest;
    assert ns == [DeclareComma] + ([Trim] + ([RangeColumns(InsertBody(prefix))] + rest));
    RenderOne(DeclareComma, [Trim] + ([RangeColumns(InsertBody(prefix))] + rest), env, st);
    RenderOne(Trim, [RangeColumns(InsertBody(prefix))] + rest, env, st.(comma := false));
    RenderOne(RangeColumns(InsertBody(prefix)), rest, env, st.(comma := false));
  }

  /** The returning clause renders as `returning key` exactly when the key is not "". */
  lemma RenderReturning(env: Env, st: St)
    ensures RenderSeq([IfKey([Text("returning "), KeyColumn])], env, st).out == st.out + Returning(env.key)
  {
    var body := [Text("returning "), KeyColumn];
    RenderText("returning ", [KeyColumn], env, st);
    RenderOne(KeyColumn, [], env, st.(out := st.out + "returning "));
    assert [IfKey(body)][1..] == [];
  }

  /** Text, the table name, then text not followed by a Trim. */
  lemma RenderHead(a: string, b: string, rest: seq<Node>, env: Env, st: St)
    requires rest == [] || rest[0] != Trim
    ensures RenderSeq([Text(a), TableName, Text(b)] + rest, env, st) ==
      RenderSeq(rest, env, st.(out := st.out + a + env.table + b))
  {
    assert [Text(a), TableName, Text(b)] + rest == [Text(a)] + ([TableName] + ([Text(b)] + rest));
    RenderText(a, [TableName] + ([Text(b)] + rest), env, st);
    var st1 := st.(out := st.out + a);
    RenderOne(TableName, [Text(b)] + rest, env, st1);
    assert RenderSeq([TableName], env, st1) == st1.(out := st1.out + env.table);
    RenderText(b, rest, env, st1.(out := st1.out + env.table));
  }

  /** The same, from the empty output. */
  lemma RenderHeadFromStart(a: string, b: string, rest: seq<Node>, env: Env)
    requires rest == [] || rest[0] != Trim
    ensures RenderSeq([Text(a), TableName, Text(b)] + rest, env, St("", false, "")) ==
      RenderSeq(rest, env, St(a + env.table + b, false, ""))
  {
    RenderHead(a, b, rest, env, St("", false, ""));
    assert "" + a == a;
  }

  function InsertList(prefix: string, rest: seq<Node>): seq<Node>
  {
    [DeclareComma, Trim, RangeColumns(InsertBody(prefix))] + rest
  }

  const InsertReturning: seq<Node> := [IfKey([Text("returning "), KeyColumn])]

  /** The part of insertSQL's template from the placeholder list on. */
  lemma InsertTail(env: Env, st: St)
    ensures RenderSeq(InsertList(":", [Text(") ")] + InsertReturning), env, st).out ==
      st.out + GoStrings.Join(Map(env.columns, ":", ""), ", ") + ") " + Returning(env.key)
  {
    InsertListRenders(":", [Text(") ")] + InsertReturning, env, st);
    var r := RenderRange(InsertBody(":"), env.columns, env, st.(comma := false));
    RenderText(") ", InsertReturning, env, r);
    RenderReturning(env, r.(out := r.out + ") "));
    InsertRange(":", env.columns, env, st.(comma := false));
    JoinAfterIsJoin(Map(env.columns, ":", ""));
  }

  /** The part of insertSQL's template from the column list on. */
  lemma InsertMiddle(env: Env, st: St)
    ensures RenderSeq(InsertList("", [Text(") values (")] + InsertList(":", [Text(") ")] + InsertReturning)), env, st).out ==
      st.out + GoStrings.Join(env.columns, ", ") + ") values (" +
      GoStrings.Join(Map(env.columns, ":", ""), ", ") + ") " + Returning(env.key)
  {
    var rest := InsertList(":", [Text(") ")] + InsertReturning);
    InsertListRenders("", [Text(") values (")] + rest, env, st);
    var r := RenderRange(InsertBody(""), env.columns, env, st.(comma := false));
    RenderText(") values (", rest, env, r);
    InsertTail(env, r.(out := r.out + ") values ("));
    InsertRange("", env.columns, env, st.(comma := false));
    JoinAfterIsJoin(env.columns);
    MapEmpty(env.columns);
  }

  /** insertSQL's template is its head followed by the two lists and the returning clause. */
  lemma InsertTemplateShape()
    ensures InsertTemplate == [Text("insert into "), TableName, Text(" (")] +
      InsertList("", [Text(") values (")] + InsertList(":", [Text(") ")] + InsertReturning))
  {
  }

  /** insertSQL's template renders the closed form. */
  lemma InsertTemplateRenders(cols: seq<string>, table: string, key: string)
    ensures Render(InsertTemplate, Env(table, cols, key, "")) == InsertSql(cols, table, key)
  {
    var env := Env(table, cols, key, "");
    var rest := InsertList("", [Text(") values (")] + InsertList(":", [Text(") ")] + InsertReturning));
    InsertTemplateShape();
    RenderHeadFromStart("insert into ", " (", rest, env);
    InsertMiddle(env, St("insert into " + table + " (", false, ""));
  }

  /** One pass of updateSQL's loop body: an optional ", ", then `col = :col`. */
  lemma UpdateBodyStep(env: Env, st: St, c: string)
    ensures RenderSeq(UpdateBody, env, st.(col := c)) == St(st.out + (if st.comma then ", " else "") + (c + " = :" + c), true, c)
  {
    var st0 := st.(col := c);
    var sep := if st.comma then ", " else "";
    var st1 := st0.(out := st0.out + sep);
    var tail := [Text(" = :")] + ([ColVar] + Close);
    assert UpdateBody == [IfComma([Text(", ")])] + ([ColVar] + tail);
    IfCommaRenders([ColVar] + tail, env, st0);
    RenderOne(ColVar, tail, env, st1);
    assert [ColVar][1..] == [];
    var st2 := st1.(out := st1.out + c);
    RenderText(" = :", [ColVar] + Close, env, st2);
    ColCloseRenders(env, st2.(out := st2.out + " = :"));
  }

  lemma {:induction false} UpdateRange(cols: seq<string>, env: Env, st: St)
    ensures var r := RenderRange(UpdateBody, cols, env, st);
      r.out == st.out + JoinAfter(st.comma, Map(cols, "", " = :"))
    decreases |cols|
  {
    if cols != [] {
      var m := Map(cols, "", " = :");
      var sep := if st.comma then ", " else "";
      UpdateBodyStep(env, st, cols[0]);
      UpdateRange(cols[1..], env, St(st.out + sep + (cols[0] + " = :" + cols[0]), true, cols[0]));
      assert m[1..] == Map(cols[1..], "", " = :");
      assert m[0] == cols[0] + " = :" + cols[0];
      assert JoinAfter(st.comma, m) == sep + m[0] + JoinAfter(true, m[1..]);
    }
  }

  const UpdateTailNodes: seq<Node> := [Text(" where "), WhereClause, Text(" ")] + InsertReturning

  /** The where clause and the returning clause of updateSQL. */
  lemma UpdateTail(env: Env, st: St)
    ensures RenderSeq(UpdateTailNodes, env, st).out == st.out + " where " + env.where + " " + Returning(env.key)
  {
    var rest := [WhereClause, Text(" ")] + InsertReturning;
    assert UpdateTailNodes == [Text(" where ")] + rest;
    RenderText(" where ", rest, env, st);
    var st1 := st.(out := st.out + " where ");
    assert rest == [WhereClause] + ([Text(" ")] + InsertReturning);
    RenderOne(WhereClause, [Text(" ")] + InsertReturning, env, st1);
    var st2 := st1.(out := st1.out + env.where);
    RenderText(" ", InsertReturning, env, st2);
    RenderReturning(env, st2.(out := st2.out + " "));
  }

  /** From `{{$putComa := false}} {{- range ...}}` to the end of updateSQL's template. */
  lemma UpdateMiddle(env: Env, st: St)
    ensures RenderSeq([DeclareComma, Text(" "), Trim, RangeColumns(UpdateBody)] + UpdateTailNodes, env, st).out ==
      st.out + GoStrings.Join(Map(env.columns, "", " = :"), ", ") + " where " + env.where + " " + Returning(env.key)
  {
    TrimSpace();
    var ns := [DeclareComma, Text(" "), Trim, RangeColumns(UpdateBody)] + UpdateTailNodes;
    var st0 := st.(comma := false);
    RenderOne(DeclareComma, ns[1..], env, st);
    assert ns[1..] == [Text(" ")] + ns[2..] && ns[2] == Trim;
    assert RenderSeq(ns[1..], env, st0) == RenderSeq(ns[2..], env, st0) by {
      assert st0.out + "" == st0.out;
    }
    RenderOne(Trim, ns[3..], env, st0);
    RenderOne(RangeColumns(UpdateBody), UpdateTailNodes, env, st0);
    assert ns[3..] == [RangeColumns(UpdateBody)] + UpdateTailNodes;
    var r := RenderRange(UpdateBody, env.columns, env, st0);
    UpdateRange(env.columns, env, st0);
    JoinAfterIsJoin(Map(env.columns, "", " = :"));
    UpdateTail(env, r);
  }

  lemma UpdateTemplateShape()
    ensures UpdateTemplate == [Text("update "), TableName, Text(" set ")] +
      ([DeclareComma, Text(" "), Trim, RangeColumns(UpdateBody)] + UpdateTailNodes)
  {
  }

  /** updateSQL's template renders the closed form. */
  lemma UpdateTemplateRenders(cols: seq<string>, table: string, where: string, key: string)
    ensures Render(UpdateTemplate, Env(table, cols, key, where)) == UpdateSql(cols, table, where, key)
  {
    var env := Env(table, cols, key, where);
    UpdateTemplateShape();
    RenderHeadFromStart("update ", " set ", [DeclareComma, Text(" "), Trim, RangeColumns(UpdateBody)] + UpdateTailNodes, env);
    UpdateMiddle(env, St("update " + table + " set ", false, ""));
  }

  /**
   * On SQLite, Insert keeps the text before the first "returning": when the
   * table and column names hold no "returning", that is the statement without
   * the returning clause, whatever the key.
   */
  lemma SqliteDropsReturning(cols: seq<string>, table: string, key: string)
    requires GoStrings.NoOccurrence(InsertSql(cols, table, ""), "returning")
    ensures GoStrings.BeforeFirst(InsertSql(cols, table, key), "returning") == InsertSql(cols, table, "")
  {
    var base := InsertSql(cols, table, "");
    assert base + Returning(key) == InsertSql(cols, table, key);
    assert base[|base| - 1] == ' ';
    assert ' ' !in "returning";
    if key != "" {
      var t := Returning(key);
      assert t[..9] == "returning";
    }
    GoStrings.BeforeFirstAppend(base, Returning(key), "returning");
  }
}
