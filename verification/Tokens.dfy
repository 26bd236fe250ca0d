/** The gateway's access tokens: the store with its default, and the map of valid tokens
    rendered from it. */
module Tokens {
  import opened Replies

  type Id = s: string | s != "" witness "000000"

  datatype Row = Row(id: Id, tokenLabel: string, value: string, created: int)

  /** `tokens.json` with its rows in insertion order, and the lines of `tokens.map`. */
  datatype Gateway = Gateway(defaultId: Option<Id>, rows: seq<Row>, tokensMap: seq<string>)

  datatype Did<+T> = Did(gateway: Gateway, result: Reply<T>)

  /** Replies for one `add_token`: the ids drawn, until one is free or the process is
      interrupted while it keeps drawing; the drawn value, the clock, and the two writes. */
  datatype AddEnv = AddEnv(draws: seq<Id>, value: string, now: int, save: Reply<()>, nginx: Reply<()>)

  datatype WriteEnv = WriteEnv(save: Reply<()>, nginx: Reply<()>)

  datatype Issued = Issued(id: Id, value: string)

  // ----- Rows -----

  predicate Has(rows: seq<Row>, id: Id) {
    exists r <- rows :: r.id == id
  }

  predicate DistinctIds(rows: seq<Row>) {
    forall i, j :: 0 <= i < j < |rows| ==> rows[i].id != rows[j].id
  }

  function Find(rows: seq<Row>, id: Id): (k: nat)
    requires Has(rows, id)
    ensures k < |rows| && rows[k].id == id && forall j :: 0 <= j < k ==> rows[j].id != id
  {
    if rows[0].id == id then 0 else Find(rows[1..], id) + 1
  }

  /** `del tokens[id]` */
  function Without(rows: seq<Row>, id: Id): seq<Row>
    requires Has(rows, id)
  {
    rows[..Find(rows, id)] + rows[Find(rows, id) + 1..]
  }

  /** `_oldest_token_id`: earliest creation time, and among equals the first inserted. */
  function Oldest(rows: seq<Row>): (k: nat)
    requires rows != []
    ensures k < |rows|
    ensures forall j :: 0 <= j < |rows| ==> rows[k].created <= rows[j].created
    ensures forall j :: 0 <= j < k ==> rows[k].created < rows[j].created
  {
    if |rows| == 1 then 0 else
      var k := Oldest(rows[..|rows| - 1]);
      if rows[|rows| - 1].created < rows[k].created then |rows| - 1 else k
  }

  function OldestId(rows: seq<Row>): Option<Id> {
    if rows == [] then None else Some(rows[Oldest(rows)].id)
  }

  // ----- The rendered map -----

  function Line(value: string): string {
    "    \"" + value + "\" 1;"
  }

  function LinesOf(rows: seq<Row>): seq<string> {
    if rows == [] then [] else
      LinesOf(rows[..|rows| - 1]) + if rows[|rows| - 1].value == "" then [] else [Line(rows[|rows| - 1].value)]
  }

  const HEADER: seq<string> := [
    "# Generated by ./stremio; do not edit by hand.", "map $gateway_token $token_valid {", "    default 0;"]

  function TokensMap(rows: seq<Row>): seq<string> {
    HEADER + LinesOf(rows) + ["}"]
  }

  /** The map marks this value as valid. */
  predicate Accepts(tokensMap: seq<string>, value: string) {
    Line(value) in tokensMap
  }

  predicate Live(rows: seq<Row>, value: string) {
    exists r <- rows :: r.value == value
  }

  predicate InSync(g: Gateway) {
    g.tokensMap == TokensMap(g.rows)
  }

  // ----- Specification -----

  predicate CanDraw(rows: seq<Row>, draws: seq<Id>) {
    exists d <- draws :: !Has(rows, d)
  }

  const INTERRUPTED := 130

  /** The redraw loop ends at the first id not taken. */
  function FirstFree(rows: seq<Row>, draws: seq<Id>): (id: Id)
    requires CanDraw(rows, draws)
    ensures !Has(rows, id) && exists k :: 0 <= k < |draws| && draws[k] == id && forall j :: 0 <= j < k ==> Has(rows, draws[j])
  {
    if !Has(rows, draws[0]) then draws[0] else FirstFree(rows, draws[1..])
  }

  /** Save the store, then rewrite the nginx files from it. */
  function Commit<T>(g: Gateway, defaultId: Option<Id>, rows: seq<Row>, env: WriteEnv, value: T): Did<T> {
    if env.save.IsFailure() then Did(g, env.save.PropagateFailure())
    else if env.nginx.IsFailure() then Did(Gateway(defaultId, rows, g.tokensMap), env.nginx.PropagateFailure())
    else Did(Gateway(defaultId, rows, TokensMap(rows)), Answer(value))
  }

  function Add(g: Gateway, tokenLabel: string, makeDefault: bool, env: AddEnv): Did<Issued> {
    if !CanDraw(g.rows, env.draws) then Did(g, Exits(INTERRUPTED)) else
    var id := FirstFree(g.rows, env.draws);
    Commit(g, if makeDefault || g.defaultId.None? then Some(id) else g.defaultId,
           g.rows + [Row(id, tokenLabel, env.value, env.now)], WriteEnv(env.save, env.nginx), Issued(id, env.value))
  }

  function DefaultWithout(g: Gateway, id: Id): Option<Id>
    requires Has(g.rows, id)
  {
    if g.defaultId == Some(id) then OldestId(Without(g.rows, id)) else g.defaultId
  }

  function Revoke(g: Gateway, id: Id, env: WriteEnv): Did<string> {
    if !Has(g.rows, id) then Did(g, Raises)
    else Commit(g, DefaultWithout(g, id), Without(g.rows, id), env, g.rows[Find(g.rows, id)].tokenLabel)
  }

  /** Deletion is saved before the replacement is drawn; the nginx files are not rewritten
      in between. */
  function Rotate(g: Gateway, id: Id, save: Reply<()>, env: AddEnv): Did<Issued> {
    if !Has(g.rows, id) then Did(g, Raises)
    else if save.IsFailure() then Did(g, save.PropagateFailure())
    else Add(g.(defaultId := DefaultWithout(g, id), rows := Without(g.rows, id)),
             g.rows[Find(g.rows, id)].tokenLabel, g.defaultId == Some(id), env)
  }

  function Use(g: Gateway, id: Id, env: WriteEnv): Did<string> {
    if !Has(g.rows, id) then Did(g, Raises)
    else Commit(g, Some(id), g.rows, env, g.rows[Find(g.rows, id)].tokenLabel)
  }

  // ----- The object -----

  class CometGatewayManager {
    var defaultId: Option<Id>
    var rows: seq<Row>
    var tokensMap: seq<string>

    constructor ()
      ensures View() == Gateway(None, [], [])
    {
      defaultId, rows, tokensMap := None, [], [];
    }

    ghost function View(): Gateway
      reads this
    {
      Gateway(defaultId, rows, tokensMap)
    }

    method RenderTokensMap() returns (lines: seq<string>)
      ensures lines == TokensMap(rows)
    {
      lines := HEADER;
      for i := 0 to |rows|
        invariant lines == HEADER + LinesOf(rows[..i])
      {
        assert rows[..i + 1][..i] == rows[..i];
        if rows[i].value != "" {
          lines := lines + [Line(rows[i].value)];
        }
      }
      assert rows[..|rows|] == rows;
      lines := lines + ["}"];
    }

    method DrawTokenId(draws: seq<Id>) returns (r: Reply<Id>)
      ensures r == if CanDraw(rows, draws) then Answer(FirstFree(rows, draws)) else Exits(INTERRUPTED)
    {
      for i := 0 to |draws|
        invariant CanDraw(rows, draws[i..]) <==> CanDraw(rows, draws)
        invariant CanDraw(rows, draws) ==> FirstFree(rows, draws[i..]) == FirstFree(rows, draws)
      {
        assert draws[i..][0] == draws[i] && draws[i..][1..] == draws[i + 1..];
        if !Has(rows, draws[i]) {
          assert draws[i] in draws[i..];
          return Answer(draws[i]);
        }
        assert draws[i..] == [draws[i]] + draws[i + 1..];
      }
      return Exits(INTERRUPTED);
    }

    method Write(env: WriteEnv, newDefault: Option<Id>, newRows: seq<Row>) returns (r: Reply<()>)
      modifies this
      ensures Did(View(), r) == Commit(old(View()), newDefault, newRows, env, ())
    {
      var _ :- env.save;
      defaultId, rows := newDefault, newRows;
      var _ :- env.nginx;
      tokensMap := RenderTokensMap();
      return Done;
    }

    method AddToken(tokenLabel: string, makeDefault: bool, env: AddEnv) returns (r: Reply<Issued>)
      modifies this
      ensures Did(View(), r) == Add(old(View()), tokenLabel, makeDefault, env)
    {
      var drawn := DrawTokenId(env.draws);
      var id :- drawn;
      var row := Row(id, tokenLabel, env.value, env.now);
      var newDefault := if makeDefault || defaultId.None? then Some(id) else defaultId;
      var wrote := Write(WriteEnv(env.save, env.nginx), newDefault, rows + [row]);
      var _ :- wrote;
      return Answer(Issued(id, env.value));
    }

    method RevokeToken(id: Id, env: WriteEnv) returns (r: Reply<string>)
      modifies this
      ensures Did(View(), r) == Revoke(old(View()), id, env)
    {
      if !Has(rows, id) {
        return Raises;
      }
      var tokenLabel := rows[Find(rows, id)].tokenLabel;
      var left := Without(rows, id);
      var newDefault := if defaultId == Some(id) then OldestId(left) else defaultId;
      var wrote := Write(env, newDefault, left);
      var _ :- wrote;
      return Answer(tokenLabel);
    }

    method RotateToken(id: Id, save: Reply<()>, env: AddEnv) returns (r: Reply<Issued>)
      modifies this
      ensures Did(View(), r) == Rotate(old(View()), id, save, env)
    {
      if !Has(rows, id) {
        return Raises;
      }
      var tokenLabel := rows[Find(rows, id)].tokenLabel;
      var wasDefault := defaultId == Some(id);
      var left := Without(rows, id);
      var _ :- save;
      rows := left;
      if wasDefault {
        defaultId := OldestId(left);
      }
      r := AddToken(tokenLabel, wasDefault, env);
    }

    method UseToken(id: Id, env: WriteEnv) returns (r: Reply<string>)
      modifies this
      ensures Did(View(), r) == Use(old(View()), id, env)
    {
      if !Has(rows, id) {
        return Raises;
      }
      var tokenLabel := rows[Find(rows, id)].tokenLabel;
      var wrote := Write(env, Some(id), rows);
      var _ :- wrote;
      return Answer(tokenLabel);
    }
  }

  // ----- Runs -----

  /** `Refresh` is the rewrite of the nginx files at every start of the gateway. */
  datatype Op =
    | OpAdd(tokenLabel: string, makeDefault: bool, add: AddEnv)
    | OpRevoke(id: Id, write: WriteEnv)
    | OpRotate(id: Id, save: Reply<()>, add: AddEnv)
    | OpUse(id: Id, write: WriteEnv)
    | Refresh(nginx: Reply<()>)

  function Next(g: Gateway, op: Op): Did<()> {
    match op
    case OpAdd(tokenLabel, makeDefault, env) => var d := Add(g, tokenLabel, makeDefault, env); Did(d.gateway, Status(d.result))
    case OpRevoke(id, env) => var d := Revoke(g, id, env); Did(d.gateway, Status(d.result))
    case OpRotate(id, save, env) => var d := Rotate(g, id, save, env); Did(d.gateway, Status(d.result))
    case OpUse(id, env) => var d := Use(g, id, env); Did(d.gateway, Status(d.result))
    case Refresh(nginx) => if nginx.IsFailure() then Did(g, nginx) else Did(g.(tokensMap := TokensMap(g.rows)), Done)
  }

  function Run(g: Gateway, ops: seq<Op>): Gateway
    decreases |ops|
  {
    if ops == [] then g else Run(Next(g, ops[0]).gateway, ops[1..])
  }

  /** Ids identify tokens; there is a default exactly when there is a token, and it names
      one of them. */
  predicate Inv(g: Gateway) {
    && DistinctIds(g.rows)
    && (g.defaultId.None? <==> g.rows == [])
    && (g.defaultId.Some? ==> Has(g.rows, g.defaultId.value))
  }

  lemma WithoutKeepsOthers(rows: seq<Row>, id: Id)
    requires Has(rows, id) && DistinctIds(rows)
    ensures var left := Without(rows, id);
            && |left| == |rows| - 1 && DistinctIds(left) && !Has(left, id)
            && forall r :: r in left <==> r in rows && r.id != id
  {
    var k := Find(rows, id);
    var left := Without(rows, id);
    forall i | 0 <= i < |left| ensures left[i] == rows[if i < k then i else i + 1] {
    }
    forall r | r in rows && r.id != id ensures r in left {
      var j :| 0 <= j < |rows| && rows[j] == r;
      assert left[if j < k then j else j - 1] == r;
    }
  }

  lemma DefaultWithoutIsLive(g: Gateway, id: Id)
    requires Inv(g) && Has(g.rows, id)
    ensures var left := Without(g.rows, id);
            && (DefaultWithout(g, id).None? <==> left == [])
            && (left != [] ==> Has(left, DefaultWithout(g, id).value))
  {
    WithoutKeepsOthers(g.rows, id);
    var left := Without(g.rows, id);
    hide Without, Find;
    if left != [] && g.defaultId != Some(id) {
      var r :| r in g.rows && r.id == g.defaultId.value;
      assert r in left;
    }
  }

  lemma RevokedKeepsInv(g: Gateway, id: Id)
    requires Inv(g) && Has(g.rows, id)
    ensures Inv(g.(defaultId := DefaultWithout(g, id), rows := Without(g.rows, id)))
  {
    WithoutKeepsOthers(g.rows, id);
    DefaultWithoutIsLive(g, id);
    hide Without, DefaultWithout;
  }

  lemma AddKeepsInv(g: Gateway, tokenLabel: string, makeDefault: bool, env: AddEnv)
    requires Inv(g)
    ensures Inv(Add(g, tokenLabel, makeDefault, env).gateway)
  {
    if CanDraw(g.rows, env.draws) {
      var row := Row(FirstFree(g.rows, env.draws), tokenLabel, env.value, env.now);
      var rows := g.rows + [row];
      assert row in rows;
      forall r | r in g.rows ensures r in rows {
      }
    }
  }

  /** Every operation keeps the store sound, however far it gets. */
  lemma StepKeepsInv(g: Gateway, op: Op)
    requires Inv(g)
    ensures Inv(Next(g, op).gateway)
  {
    match op
    case OpAdd(tokenLabel, makeDefault, env) => AddKeepsInv(g, tokenLabel, makeDefault, env);
    case OpRevoke(id, env) =>
      if Has(g.rows, id) {
        RevokedKeepsInv(g, id);
        hide Without, DefaultWithout;
      }
    case OpRotate(id, save, env) =>
      if Has(g.rows, id) {
        RevokedKeepsInv(g, id);
        AddKeepsInv(g.(defaultId := DefaultWithout(g, id), rows := Without(g.rows, id)),
                    g.rows[Find(g.rows, id)].tokenLabel, g.defaultId == Some(id), env);
        hide Without, DefaultWithout, Add, Find;
      }
    case OpUse(id, env) =>
    case Refresh(nginx) =>
  }

  /** In every run, also with failing writes: the default is null exactly when there is no
      token, and otherwise names a live one. */
  lemma {:induction false} DefaultIsLive(g: Gateway, ops: seq<Op>)
    requires Inv(g)
    ensures Inv(Run(g, ops))
    decreases |ops|
  {
    hide Inv, Next;
    if ops != [] {
      StepKeepsInv(g, ops[0]);
      DefaultIsLive(Next(g, ops[0]).gateway, ops[1..]);
    }
  }

  /** Revoking the default promotes the earliest-created survivor, the first inserted
      among equals. */
  lemma RevokePromotesOldest(g: Gateway, id: Id, env: WriteEnv)
    requires Inv(g) && g.defaultId == Some(id) && env.save.Answer? && |g.rows| > 1
    ensures var after := Revoke(g, id, env).gateway;
            exists k :: 0 <= k < |after.rows| && after.defaultId == Some(after.rows[k].id)
              && (forall j :: 0 <= j < |after.rows| ==> after.rows[k].created <= after.rows[j].created)
              && (forall j :: 0 <= j < k ==> after.rows[k].created < after.rows[j].created)
  {
    WithoutKeepsOthers(g.rows, id);
    var left := Without(g.rows, id);
    var k := Oldest(left);
    var after := Revoke(g, id, env).gateway;
    assert after.rows == left && after.defaultId == Some(left[k].id);
    hide *;
    assert 0 <= k < |after.rows| && after.defaultId == Some(after.rows[k].id);
  }

  /** A completed rotation replaces one token: same number, same label, same place as
      default, all other tokens untouched and in order. */
  lemma RotatePreserves(g: Gateway, id: Id, save: Reply<()>, env: AddEnv)
    requires Inv(g) && Rotate(g, id, save, env).result.Answer?
    ensures var d := Rotate(g, id, save, env);
            var after, issued := d.gateway, d.result.value;
            && |after.rows| == |g.rows|
            && after.rows[..|g.rows| - 1] == Without(g.rows, id)
            && after.rows[|g.rows| - 1] == Row(issued.id, g.rows[Find(g.rows, id)].tokenLabel, env.value, env.now)
            && issued.id in env.draws
            && (after.defaultId == Some(issued.id) <==> g.defaultId == Some(id))
            && (g.defaultId != Some(id) ==> after.defaultId == g.defaultId)
  {
    WithoutKeepsOthers(g.rows, id);
    DefaultWithoutIsLive(g, id);
    hide Without, Find;
  }

  // ----- The map accepts the live tokens -----

  lemma LineIsInjective(a: string, b: string)
    requires Line(a) == Line(b)
    ensures a == b
  {
    assert |Line(a)| == |a| + 9 && |Line(b)| == |b| + 9;
    forall i | 0 <= i < |a| ensures a[i] == b[i] {
      assert Line(a)[i + 5] == a[i] && Line(b)[i + 5] == b[i];
    }
  }

  lemma LineIsNoFrame(value: string)
    ensures Line(value) !in HEADER && Line(value) != "}"
  {
    assert |Line(value)| == |value| + 9 && Line(value)[4] == '\"' && Line(value)[0] == ' ';
  }

  lemma {:induction false} LinesOfLive(rows: seq<Row>, value: string)
    ensures Line(value) in LinesOf(rows) <==> value != "" && Live(rows, value)
  {
    if rows != [] {
      var front, last := rows[..|rows| - 1], rows[|rows| - 1];
      LinesOfLive(front, value);
      assert rows == front + [last];
      if Line(last.value) == Line(value) {
        LineIsInjective(last.value, value);
      }
      hide Line;
      assert Live(rows, value) <==> Live(front, value) || last.value == value by {
        assert forall r :: r in rows <==> r in front || r == last;
      }
    }
  }

  /** The rendered map marks exactly the non-empty values of live tokens as valid. */
  lemma MapAcceptsExactlyLive(rows: seq<Row>, value: string)
    ensures Accepts(TokensMap(rows), value) <==> value != "" && Live(rows, value)
  {
    LinesOfLive(rows, value);
    LineIsNoFrame(value);
    hide Line, LinesOf;
  }

  lemma SyncMeans(g: Gateway)
    requires InSync(g)
    ensures g.tokensMap == TokensMap(g.rows)
  {
  }

  lemma CompletedRewrites(g: Gateway, op: Op)
    requires Next(g, op).result.Answer?
    ensures InSync(Next(g, op).gateway)
  {
    hide TokensMap, CanDraw, FirstFree, Without, DefaultWithout, Has, Find;
  }

  /** Every operation that completes leaves the map in step with the store, whatever state
      earlier failures left it in. */
  lemma CompletedIsInSync(g: Gateway, op: Op)
    requires Next(g, op).result.Answer?
    ensures InSync(Next(g, op).gateway)
    ensures forall value :: Accepts(Next(g, op).gateway.tokensMap, value) <==>
              value != "" && Live(Next(g, op).gateway.rows, value)
  {
    var after := Next(g, op).gateway;
    CompletedRewrites(g, op);
    hide *;
    assert after.tokensMap == TokensMap(after.rows) by { SyncMeans(after); }
    forall value ensures Accepts(after.tokensMap, value) <==> value != "" && Live(after.rows, value) {
      MapAcceptsExactlyLive(after.rows, value);
    }
  }

  /** A revoked token is still let in exactly when one of the two writes failed, or another
      live token has the same value. */
  lemma StillAcceptedAfterRevoke(g: Gateway, id: Id, env: WriteEnv)
    requires Inv(g) && InSync(g) && Has(g.rows, id) && g.rows[Find(g.rows, id)].value != ""
    ensures var value := g.rows[Find(g.rows, id)].value;
            Accepts(Revoke(g, id, env).gateway.tokensMap, value) <==>
              env.save.IsFailure() || env.nginx.IsFailure() || Live(Without(g.rows, id), value)
  {
    var value := g.rows[Find(g.rows, id)].value;
    MapAcceptsExactlyLive(g.rows, value);
    MapAcceptsExactlyLive(Without(g.rows, id), value);
    assert Live(g.rows, value);
    hide Without, Accepts, Live, TokensMap, DefaultWithout;
  }

  /** Rotation rewrites the map only at its very end: the old token is still let in exactly
      when any of its three writes failed, the process was interrupted while drawing an id,
      or a token that is now live has the same value. If it broke off between its two saves,
      the token is by then gone from the store. */
  lemma StillAcceptedAfterRotate(g: Gateway, id: Id, save: Reply<()>, env: AddEnv)
    requires Inv(g) && InSync(g) && Has(g.rows, id) && g.rows[Find(g.rows, id)].value != ""
    ensures var value := g.rows[Find(g.rows, id)].value;
            var drawn := CanDraw(Without(g.rows, id), env.draws);
            var after := Rotate(g, id, save, env).gateway;
            && (Accepts(after.tokensMap, value) <==>
                 save.IsFailure() || !drawn || env.save.IsFailure() || env.nginx.IsFailure()
                 || Live(Without(g.rows, id), value) || env.value == value)
            && (save.Answer? && (!drawn || env.save.IsFailure()) ==> after.rows == Without(g.rows, id))
  {
    var value := g.rows[Find(g.rows, id)].value;
    var left := Without(g.rows, id);
    MapAcceptsExactlyLive(g.rows, value);
    assert Live(g.rows, value);
    if CanDraw(left, env.draws) {
      var row := Row(FirstFree(left, env.draws), g.rows[Find(g.rows, id)].tokenLabel, env.value, env.now);
      MapAcceptsExactlyLive(left + [row], value);
      assert Live(left + [row], value) <==> Live(left, value) || row.value == value by {
        assert forall r :: r in left + [row] <==> r in left || r == row;
      }
    }
    hide Without, Accepts, Live, TokensMap, DefaultWithout, FirstFree, CanDraw;
  }

  // ----- What each operation does to the store -----

  /** A new token gets an id that was drawn and is free, and the drawn value; it becomes the
      default when asked for or when there was none. It is on record exactly when an id was
      found and the store saved, and the operation completes exactly when the map was
      rewritten too; what it answers is then what the map lets in. */
  lemma AddIssuesExactly(g: Gateway, tokenLabel: string, makeDefault: bool, env: AddEnv)
    ensures var d := Add(g, tokenLabel, makeDefault, env);
            var after := d.gateway;
            var saved := CanDraw(g.rows, env.draws) && env.save.Answer?;
            && (d.result.Answer? <==> saved && env.nginx.Answer?)
            && (!saved ==> after == g)
            && (saved ==>
                  && |after.rows| == |g.rows| + 1 && after.rows[..|g.rows|] == g.rows
                  && var row := after.rows[|g.rows|];
                  && row == Row(row.id, tokenLabel, env.value, env.now) && row.id in env.draws && !Has(g.rows, row.id)
                  && after.defaultId == (if makeDefault || g.defaultId.None? then Some(row.id) else g.defaultId)
                  && (d.result.Answer? ==> d.result.value == Issued(row.id, row.value)))
            && (d.result.Answer? && env.value != "" ==> Accepts(after.tokensMap, d.result.value.value))
  {
    if CanDraw(g.rows, env.draws) {
      var rows := g.rows + [Row(FirstFree(g.rows, env.draws), tokenLabel, env.value, env.now)];
      MapAcceptsExactlyLive(rows, env.value);
      assert Live(rows, env.value) by { assert rows[|g.rows|] in rows; }
    }
    hide TokensMap, Accepts, Live;
  }

  /** A revocation drops the one token of this id and keeps the order of the others, and the
      default unless that was the one; it happens exactly when the token exists and the store
      is saved, and completes, answering the label, exactly when the map was rewritten too. */
  lemma RevokeDropsExactly(g: Gateway, id: Id, env: WriteEnv)
    requires Inv(g)
    ensures var d := Revoke(g, id, env);
            var after := d.gateway;
            var saved := Has(g.rows, id) && env.save.Answer?;
            && (d.result.Answer? <==> saved && env.nginx.Answer?)
            && (!saved ==> after == g)
            && (saved ==>
                  && after.rows == Without(g.rows, id) && |after.rows| == |g.rows| - 1
                  && (forall r :: r in after.rows <==> r in g.rows && r.id != id)
                  && (g.defaultId != Some(id) ==> after.defaultId == g.defaultId))
            && (d.result.Answer? ==> d.result.value == g.rows[Find(g.rows, id)].tokenLabel)
  {
    if Has(g.rows, id) {
      WithoutKeepsOthers(g.rows, id);
    }
    hide Without, Find, TokensMap;
  }

  /** A rotation completes exactly when the token exists, both saves and the rewrite of the map
      succeed and an id is found, and what it answers is then let in; once the first save has
      failed, or for an unknown token, nothing changes. */
  lemma RotateIssuesExactly(g: Gateway, id: Id, save: Reply<()>, env: AddEnv)
    ensures var d := Rotate(g, id, save, env);
            && (d.result.Answer? <==>
                  && Has(g.rows, id) && save.Answer? && CanDraw(Without(g.rows, id), env.draws)
                  && env.save.Answer? && env.nginx.Answer?)
            && (!Has(g.rows, id) || save.IsFailure() ==> d.gateway == g)
            && (d.result.Answer? ==>
                  && d.result.value.value == env.value
                  && (env.value != "" ==> Accepts(d.gateway.tokensMap, d.result.value.value)))
  {
    if Has(g.rows, id) {
      var left := g.(defaultId := DefaultWithout(g, id), rows := Without(g.rows, id));
      AddIssuesExactly(left, g.rows[Find(g.rows, id)].tokenLabel, g.defaultId == Some(id), env);
    }
    hide Add, Without, DefaultWithout, Find, Accepts, TokensMap;
  }

  /** A change of default takes effect exactly when the token exists and the store is saved; it
      changes no token, and completes, answering the label, exactly when the map was rewritten
      too, which then lets in what it would have let in before. */
  lemma UseSetsDefaultExactly(g: Gateway, id: Id, env: WriteEnv)
    ensures var d := Use(g, id, env);
            var saved := Has(g.rows, id) && env.save.Answer?;
            && (d.result.Answer? <==> saved && env.nginx.Answer?)
            && d.gateway.rows == g.rows
            && d.gateway.defaultId == (if saved then Some(id) else g.defaultId)
            && d.gateway.tokensMap == (if d.result.Answer? then TokensMap(g.rows) else g.tokensMap)
            && (d.result.Answer? ==> d.result.value == g.rows[Find(g.rows, id)].tokenLabel)
            && (InSync(g) ==> d.gateway.tokensMap == g.tokensMap)
  {
    hide TokensMap, Find;
  }

  // ----- A token that outlives its revocation -----

  const ONLY := Row("a1b2c3", "tv", "secret00", 0)

  /** A gateway with this one token, its map up to date. */
  const SINGLE := Gateway(Some("a1b2c3"), [ONLY], TokensMap([ONLY]))

  lemma OnlyRow()
    ensures Inv(SINGLE) && InSync(SINGLE) && Has([ONLY], "a1b2c3")
    ensures Find([ONLY], "a1b2c3") == 0 && Without([ONLY], "a1b2c3") == []
  {
    assert ONLY in [ONLY];
  }

  /** The nginx files cannot be rewritten: the revoked token leaves the store, not the map. */
  lemma RevokedButAccepted()
    ensures var after := Revoke(SINGLE, "a1b2c3", WriteEnv(Done, Raises)).gateway;
            after.rows == [] && Accepts(after.tokensMap, "secret00")
  {
    OnlyRow();
    StillAcceptedAfterRevoke(SINGLE, "a1b2c3", WriteEnv(Done, Raises));
  }

  /** The second save fails: the rotated token is in no store any more, and still let in. */
  lemma RotatedOutButAccepted()
    ensures var after := Rotate(SINGLE, "a1b2c3", Done, AddEnv(["d4e5f6"], "fresh000", 1, Raises, Done)).gateway;
            after.rows == [] && Accepts(after.tokensMap, "secret00")
  {
    OnlyRow();
    StillAcceptedAfterRotate(SINGLE, "a1b2c3", Done, AddEnv(["d4e5f6"], "fresh000", 1, Raises, Done));
  }
}
