/**
 The decoder of the query events of a MySQL binary log: a fixed header, status variables, the
 database name and the query, copied into one allocation.
 */
module QueryLogEvent {
  import opened Wrappers
  import opened LittleEndian
  import opened ByteBuffer

  const QUERY_HEADER_MINIMAL_LEN: nat := 11
  const QUERY_HEADER_LEN: nat := 13
  const MAX_SIZE_LOG_EVENT_STATUS: nat := 638

  //////////////////////////////////////////////////////////////////////////////
  // Status variables and their layout
  //////////////////////////////////////////////////////////////////////////////

  /** In the order of their codes, 0 to 11; `OldCatalog` has an end byte of its own. */
  datatype StatusVar =
    | Flags2(flags: nat)
    | SqlMode(mode: nat)
    | OldCatalog(name: seq<Byte>, last: Byte)
    | AutoIncrement(increment: nat, offset: nat)
    | Charset(charset: seq<Byte>)
    | TimeZone(zone: seq<Byte>)
    | Catalog(name: seq<Byte>)
    | LcTimeNames(number: nat)
    | CharsetDatabase(number: nat)
    | TableMap(tables: nat)
    | MasterDataWritten(size: nat)
    | Invoker(user: seq<Byte>, host: seq<Byte>)
    | Unknown(code: Byte, rest: seq<Byte>)

  function Code(x: StatusVar): Byte {
    match x
    case Flags2(_) => 0 case SqlMode(_) => 1 case OldCatalog(_, _) => 2 case AutoIncrement(_, _) => 3
    case Charset(_) => 4 case TimeZone(_) => 5 case Catalog(_) => 6 case LcTimeNames(_) => 7
    case CharsetDatabase(_) => 8 case TableMap(_) => 9 case MasterDataWritten(_) => 10 case Invoker(_, _) => 11
    case Unknown(code, _) => code
  }

  /** Values have the width of their field. */
  predicate Fits(x: StatusVar) {
    match x
    case Flags2(n) => n < Limit(4)
    case SqlMode(n) => n < Limit(8)
    case OldCatalog(name, _) => |name| < 256
    case AutoIncrement(i, o) => i < Limit(2) && o < Limit(2)
    case Charset(c) => |c| == 6
    case TimeZone(name) => |name| < 256
    case Catalog(name) => |name| < 256
    case LcTimeNames(n) => n < Limit(2)
    case CharsetDatabase(n) => n < Limit(2)
    case TableMap(n) => n < Limit(8)
    case MasterDataWritten(n) => n < Limit(4)
    case Invoker(user, host) => |user| < 256 && |host| < 256
    case Unknown(code, _) => code > 11
  }

  function WithLength(name: seq<Byte>): seq<Byte>
    requires |name| < 256
  {
    [|name|] + name
  }

  /** What follows the code. */
  function Payload(x: StatusVar): seq<Byte>
    requires Fits(x)
  {
    match x
    case Flags2(n) => Bytes(n, 4)
    case SqlMode(n) => Bytes(n, 8)
    case OldCatalog(name, last) => WithLength(name) + [last]
    case AutoIncrement(i, o) => Bytes(i, 2) + Bytes(o, 2)
    case Charset(c) => c
    case TimeZone(name) => WithLength(name)
    case Catalog(name) => WithLength(name)
    case LcTimeNames(n) => Bytes(n, 2)
    case CharsetDatabase(n) => Bytes(n, 2)
    case TableMap(n) => Bytes(n, 8)
    case MasterDataWritten(n) => Bytes(n, 4)
    case Invoker(user, host) => WithLength(user) + WithLength(host)
    case Unknown(_, rest) => rest
  }

  //////////////////////////////////////////////////////////////////////////////
  // Reading one variable
  //////////////////////////////////////////////////////////////////////////////

  /** A variable and the cursor behind it. */
  datatype Cursor = Cursor(pos: nat, x: StatusVar)

  /** `get_str_len_and_pointer`: a string behind its length, which must end before `end`. */
  function StringAt(s: seq<Byte>, end: nat, pos: nat): (r: Option<seq<Byte>>)
    requires pos <= end <= |s|
    ensures r.Some? ==> pos + 1 + |r.value| <= end
  {
    if pos >= end || pos + s[pos] >= end then None else Some(s[pos + 1..pos + 1 + s[pos]])
  }

  function OldCatalogAt(s: seq<Byte>, end: nat, p: nat): (r: Option<Cursor>)
    requires p <= end <= |s|
    ensures r.Some? ==> p < r.value.pos <= end
  {
    if p + 1 > end || p + s[p] + 2 > end then None
    else Some(Cursor(p + s[p] + 2, OldCatalog(s[p + 1..p + 1 + s[p]], s[p + 1 + s[p]])))
  }

  function InvokerAt(s: seq<Byte>, end: nat, p: nat): (r: Option<Cursor>)
    requires p <= end <= |s|
    ensures r.Some? ==> p < r.value.pos == end
  {
    match StringAt(s, end, p)
    case None => None
    case Some(user) =>
      match StringAt(s, end, p + 1 + |user|)
      case None => None
      case Some(host) => Some(Cursor(end, Invoker(user, host)))
  }

  /** The number of bytes of a variable of fixed size. */
  function Width(code: nat): nat {
    if code == 1 || code == 9 then 8 else if code == 4 then 6 else if code == 7 || code == 8 then 2 else 4
  }

  function FixedAt(s: seq<Byte>, end: nat, p: nat, code: nat): (r: Option<Cursor>)
    requires p <= end <= |s|
    ensures r.Some? ==> p < r.value.pos <= end
  {
    if p + Width(code) > end then None
    else
      var n := NumberAt(s, p, Width(code));
      Some(Cursor(p + Width(code),
        if code == 0 then Flags2(n) else if code == 1 then SqlMode(n)
        else if code == 3 then AutoIncrement(NumberAt(s, p, 2), NumberAt(s, p + 2, 2))
        else if code == 4 then Charset(s[p..p + 6]) else if code == 7 then LcTimeNames(n)
        else if code == 8 then CharsetDatabase(n) else if code == 9 then TableMap(n) else MasterDataWritten(n)))
  }

  /** What follows a code, if it fits; after an unknown code or the invoker the rest is skipped. */
  function VarAt(s: seq<Byte>, end: nat, p: nat, code: Byte): (r: Option<Cursor>)
    requires p <= end <= |s|
    ensures r.Some? ==> p <= r.value.pos <= end
  {
    if code == 2 then OldCatalogAt(s, end, p)
    else if code == 5 || code == 6 then
      (match StringAt(s, end, p)
       case None => None
       case Some(name) => Some(Cursor(p + 1 + |name|, if code == 5 then TimeZone(name) else Catalog(name))))
    else if code == 11 then InvokerAt(s, end, p)
    else if code > 11 then Some(Cursor(end, Unknown(code, s[p..end])))
    else FixedAt(s, end, p, code)
  }

  function NextVar(s: seq<Byte>, end: nat, pos: nat): (r: Option<Cursor>)
    requires pos < end <= |s|
    ensures r.Some? ==> pos < r.value.pos <= end
  {
    VarAt(s, end, pos + 1, s[pos])
  }

  lemma {:induction false} StringStands(s: seq<Byte>, end: nat, p: nat, name: seq<Byte>)
    requires |name| < 256 && Stands(s, p, WithLength(name)) && p + 1 + |name| <= end <= |s|
    ensures StringAt(s, end, p) == Some(name)
  {
    CodeStands(s, p, |name|, name);
  }

  lemma {:induction false} OldCatalogStands(s: seq<Byte>, end: nat, p: nat, x: StatusVar)
    requires Fits(x) && x.OldCatalog? && Stands(s, p, Payload(x)) && p + |Payload(x)| <= end <= |s|
    ensures OldCatalogAt(s, end, p) == Some(Cursor(p + |Payload(x)|, x))
  {
    StandsSplit(s, p, WithLength(x.name), [x.last]);
    CodeStands(s, p, |x.name|, x.name);
    ByteStands(s, p + 1 + |x.name|, x.last);
  }

  lemma {:induction false} InvokerStands(s: seq<Byte>, end: nat, p: nat, x: StatusVar)
    requires Fits(x) && x.Invoker? && Stands(s, p, Payload(x)) && p + |Payload(x)| <= end <= |s|
    ensures InvokerAt(s, end, p) == Some(Cursor(end, x))
  {
    StandsSplit(s, p, WithLength(x.user), WithLength(x.host));
    StringStands(s, end, p, x.user);
    StringStands(s, end, p + 1 + |x.user|, x.host);
  }

  lemma {:induction false} FixedStands(s: seq<Byte>, end: nat, p: nat, x: StatusVar)
    requires Fits(x) && Stands(s, p, Payload(x)) && p + |Payload(x)| <= end <= |s|
    requires Code(x) < 11 && !x.OldCatalog? && !x.TimeZone? && !x.Catalog?
    ensures FixedAt(s, end, p, Code(x)) == Some(Cursor(p + |Payload(x)|, x))
  {
    match x
    case Flags2(n) => NumberStands(s, p, n, 4);
    case SqlMode(n) => NumberStands(s, p, n, 8);
    case AutoIncrement(i, o) =>
      StandsSplit(s, p, Bytes(i, 2), Bytes(o, 2));
      NumberStands(s, p, i, 2);
      NumberStands(s, p + 2, o, 2);
    case Charset(_) =>
    case LcTimeNames(n) => NumberStands(s, p, n, 2);
    case CharsetDatabase(n) => NumberStands(s, p, n, 2);
    case TableMap(n) => NumberStands(s, p, n, 8);
    case MasterDataWritten(n) => NumberStands(s, p, n, 4);
  }

  /** Nothing after this variable is read. */
  predicate Stops(x: StatusVar) {
    x.Invoker? || x.Unknown?
  }

  function Written(x: StatusVar): seq<Byte>
    requires Fits(x)
  {
    [Code(x)] + Payload(x)
  }

  lemma {:induction false} VarStands(s: seq<Byte>, end: nat, p: nat, x: StatusVar)
    requires Fits(x) && Stands(s, p, Payload(x)) && p + |Payload(x)| <= end <= |s| && !x.Unknown?
    ensures VarAt(s, end, p, Code(x)) == Some(Cursor(if Stops(x) then end else p + |Payload(x)|, x))
  {
    if x.OldCatalog? { OldCatalogStands(s, end, p, x); }
    else if x.Invoker? { InvokerStands(s, end, p, x); }
    else if x.TimeZone? { StringStands(s, end, p, x.zone); }
    else if x.Catalog? { StringStands(s, end, p, x.name); }
    else { FixedStands(s, end, p, x); }
  }

  /** A variable is read back as it was written. */
  lemma {:induction false} ReadsBack(s: seq<Byte>, end: nat, pos: nat, x: StatusVar)
    requires Fits(x) && Stands(s, pos, Written(x)) && pos + |Written(x)| <= end <= |s|
    ensures !x.Unknown? ==> NextVar(s, end, pos) == Some(Cursor(if Stops(x) then end else pos + |Written(x)|, x))
    ensures x.Unknown? ==> NextVar(s, end, pos) == Some(Cursor(end, Unknown(x.code, s[pos + 1..end])))
  {
    CodeStands(s, pos, Code(x), Payload(x));
    if !x.Unknown? { VarStands(s, end, pos + 1, x); }
  }

  //////////////////////////////////////////////////////////////////////////////
  // Reading all variables
  //////////////////////////////////////////////////////////////////////////////

  /** The fields set from status variables; `catalogEnd` is there when the catalog brought an end byte. */
  datatype Vars = Vars(
    flags2: Option<nat>, sqlMode: Option<nat>, catalog: seq<Byte>, catalogEnd: Option<Byte>,
    increment: nat, offset: nat, charset: Option<seq<Byte>>, timeZone: seq<Byte>,
    lcTimeNames: nat, charsetDatabase: nat, tableMap: nat, masterDataWritten: nat,
    user: seq<Byte>, host: seq<Byte>)

  const NoVars: Vars := Vars(None, None, [], None, 1, 1, None, [], 0, 0, 0, 0, [], [])

  function Set(v: Vars, x: StatusVar): Vars {
    match x
    case Flags2(n) => v.(flags2 := Some(n))
    case SqlMode(n) => v.(sqlMode := Some(n))
    case OldCatalog(name, last) => v.(catalog := name, catalogEnd := Some(last))
    case AutoIncrement(i, o) => v.(increment := i, offset := o)
    case Charset(c) => v.(charset := Some(c))
    case TimeZone(name) => v.(timeZone := name)
    case Catalog(name) => v.(catalog := name)
    case LcTimeNames(n) => v.(lcTimeNames := n)
    case CharsetDatabase(n) => v.(charsetDatabase := n)
    case TableMap(n) => v.(tableMap := n)
    case MasterDataWritten(n) => v.(masterDataWritten := n)
    case Invoker(user, host) => v.(user := user, host := host)
    case Unknown(_, _) => v
  }

  /** The fields after all variables from `pos` on, or nothing if one does not fit. */
  function AllVars(s: seq<Byte>, end: nat, pos: nat, v: Vars): Option<Vars>
    requires pos <= end <= |s|
    decreases end - pos
  {
    if pos == end then Some(v)
    else match NextVar(s, end, pos)
      case None => None
      case Some(next) => AllVars(s, end, next.pos, Set(v, next.x))
  }

  /** The decoding loop; the cursor never passes `end`. */
  method ReadVars(s: seq<Byte>, end: nat, initial: Vars) returns (r: Option<Vars>)
    requires end <= |s|
    ensures r == AllVars(s, end, 0, initial)
  {
    var pos, v := 0, initial;
    while pos < end
      invariant 0 <= pos <= end
      invariant AllVars(s, end, 0, initial) == AllVars(s, end, pos, v)
      decreases end - pos
    {
      var next := NextVar(s, end, pos);
      if next.None? { return None; }
      pos, v := next.value.pos, Set(v, next.value.x);
    }
    return Some(v);
  }

  predicate AllFit(xs: seq<StatusVar>) {
    forall i :: 0 <= i < |xs| ==> Fits(xs[i])
  }

  function WrittenAll(xs: seq<StatusVar>): seq<Byte>
    requires AllFit(xs)
  {
    if xs == [] then [] else Written(xs[0]) + WrittenAll(xs[1..])
  }

  /** The variables up to the first one after which nothing is read, and what they set. */
  function SetAll(v: Vars, xs: seq<StatusVar>): Vars
    decreases |xs|
  {
    if xs == [] then v else if Stops(xs[0]) then Set(v, xs[0]) else SetAll(Set(v, xs[0]), xs[1..])
  }

  lemma {:induction false} AllVarsStep(s: seq<Byte>, end: nat, pos: nat, v: Vars, next: Cursor)
    requires pos < end <= |s| && NextVar(s, end, pos) == Some(next)
    ensures AllVars(s, end, pos, v) == AllVars(s, end, next.pos, Set(v, next.x))
  {
  }

  lemma {:induction false} FirstReadsBack(s: seq<Byte>, end: nat, pos: nat, v: Vars, x: StatusVar, next: nat, r: Vars)
    requires Fits(x) && Stands(s, pos, Written(x)) && next == pos + |Written(x)| <= end <= |s|
    requires if Stops(x) then r == Set(v, x) else AllVars(s, end, next, Set(v, x)) == Some(r)
    ensures AllVars(s, end, pos, v) == Some(r)
  {
    ReadsBack(s, end, pos, x);
    var read := if x.Unknown? then Unknown(x.code, s[pos + 1..end]) else x;
    AllVarsStep(s, end, pos, v, Cursor(if Stops(x) then end else next, read));
    SetsSame(v, x, read);
  }

  lemma {:induction false} SetsSame(v: Vars, x: StatusVar, y: StatusVar)
    requires x == y || (x.Unknown? && y.Unknown?)
    ensures Set(v, x) == Set(v, y)
  {
  }

  /**
   Whatever variables were written, in whatever order, the decoder recovers them, up to and
   including the first invoker or unknown one.
   */
  lemma {:induction false} ReadsBackAll(s: seq<Byte>, end: nat, pos: nat, v: Vars, xs: seq<StatusVar>)
    requires AllFit(xs) && Stands(s, pos, WrittenAll(xs)) && pos + |WrittenAll(xs)| == end <= |s|
    ensures AllVars(s, end, pos, v) == Some(SetAll(v, xs))
    decreases |xs|
  {
    if xs != [] {
      var next := RestStands(s, end, pos, xs);
      var r := SetAllStep(v, xs);
      if !Stops(xs[0]) { ReadsBackAll(s, end, next, Set(v, xs[0]), xs[1..]); }
      FirstReadsBack(s, end, pos, v, xs[0], next, r);
    }
  }

  lemma {:induction false} SetAllStep(v: Vars, xs: seq<StatusVar>) returns (r: Vars)
    requires xs != []
    ensures r == SetAll(v, xs) && r == if Stops(xs[0]) then Set(v, xs[0]) else SetAll(Set(v, xs[0]), xs[1..])
  {
    r := SetAll(v, xs);
  }

  lemma {:induction false} RestStands(s: seq<Byte>, end: nat, pos: nat, xs: seq<StatusVar>) returns (next: nat)
    requires AllFit(xs) && xs != [] && Stands(s, pos, WrittenAll(xs)) && pos + |WrittenAll(xs)| == end <= |s|
    ensures AllFit(xs[1..]) && Stands(s, next, WrittenAll(xs[1..])) && next + |WrittenAll(xs[1..])| == end
    ensures Stands(s, pos, Written(xs[0])) && next == pos + |Written(xs[0])|
  {
    var w, rest := WrittenSplit(xs);
    StandsSplit(s, pos, w, rest);
    next := pos + |w|;
  }

  lemma {:induction false} WrittenSplit(xs: seq<StatusVar>) returns (w: seq<Byte>, rest: seq<Byte>)
    requires AllFit(xs) && xs != []
    ensures AllFit(xs[1..]) && WrittenAll(xs) == w + rest && w == Written(xs[0]) && rest == WrittenAll(xs[1..])
  {
    w, rest := Written(xs[0]), WrittenAll(xs[1..]);
  }

  /** The fields show the variable. */
  predicate Shows(v: Vars, x: StatusVar) {
    match x
    case Flags2(n) => v.flags2 == Some(n)
    case SqlMode(n) => v.sqlMode == Some(n)
    case OldCatalog(name, last) => v.catalog == name && v.catalogEnd == Some(last)
    case AutoIncrement(i, o) => v.increment == i && v.offset == o
    case Charset(c) => v.charset == Some(c)
    case TimeZone(name) => v.timeZone == name
    case Catalog(name) => v.catalog == name
    case LcTimeNames(n) => v.lcTimeNames == n
    case CharsetDatabase(n) => v.charsetDatabase == n
    case TableMap(n) => v.tableMap == n
    case MasterDataWritten(n) => v.masterDataWritten == n
    case Invoker(user, host) => v.user == user && v.host == host
    case Unknown(_, _) => true
  }

  /** The documented order: growing codes, and one form of the catalog. */
  predicate Growing(xs: seq<StatusVar>) {
    && (forall i, j :: 0 <= i < j < |xs| ==> Code(xs[i]) < Code(xs[j]))
    && !(exists i, j :: 0 <= i < |xs| && 0 <= j < |xs| && xs[i].OldCatalog? && xs[j].Catalog?)
  }

  /** The two variables set different fields. */
  predicate Apart(x: StatusVar, y: StatusVar) {
    Code(x) != Code(y) && !(x.OldCatalog? && y.Catalog?) && !(y.OldCatalog? && x.Catalog?)
  }

  lemma {:induction false} SetKeeps(v: Vars, x: StatusVar, y: StatusVar)
    requires Fits(x) && Fits(y) && Apart(x, y) && Shows(v, x)
    ensures Shows(Set(v, y), x)
  {
  }

  lemma {:induction false} SetAllKeeps(v: Vars, xs: seq<StatusVar>, x: StatusVar)
    requires AllFit(xs) && Fits(x) && Shows(v, x) && forall i :: 0 <= i < |xs| ==> Apart(x, xs[i])
    ensures Shows(SetAll(v, xs), x)
    decreases |xs|
  {
    if xs != [] {
      SetKeeps(v, x, xs[0]);
      if !Stops(xs[0]) { SetAllKeeps(Set(v, xs[0]), xs[1..], x); }
    }
  }

  /** In the documented order every variable is recovered, the invoker included, up to the first unknown one. */
  lemma {:induction false} RecoversEach(v: Vars, xs: seq<StatusVar>, k: nat)
    requires AllFit(xs) && Growing(xs) && k < |xs|
    ensures Shows(SetAll(v, xs), xs[k])
    decreases |xs|
  {
    var rest := xs[1..];
    if k == 0 {
      if !Stops(xs[0]) { SetAllKeeps(Set(v, xs[0]), rest, xs[0]); }
    } else if Stops(xs[0]) {
      assert Code(xs[0]) < Code(xs[k]);
    } else {
      RecoversEach(Set(v, xs[0]), rest, k - 1);
    }
  }

  //////////////////////////////////////////////////////////////////////////////
  // Absent variables
  //////////////////////////////////////////////////////////////////////////////

  /** No variable has this code. */
  predicate Lacks(xs: seq<StatusVar>, code: nat) {
    forall i :: 0 <= i < |xs| ==> Code(xs[i]) != code
  }

  /** The fields that a variable of this code sets are the same. */
  predicate SameField(v: Vars, w: Vars, code: nat) {
    match code
    case 0 => v.flags2 == w.flags2
    case 1 => v.sqlMode == w.sqlMode
    case 2 => v.catalogEnd == w.catalogEnd
    case 3 => v.increment == w.increment && v.offset == w.offset
    case 4 => v.charset == w.charset
    case 5 => v.timeZone == w.timeZone
    case 7 => v.lcTimeNames == w.lcTimeNames
    case 8 => v.charsetDatabase == w.charsetDatabase
    case 9 => v.tableMap == w.tableMap
    case 10 => v.masterDataWritten == w.masterDataWritten
    case 11 => v.user == w.user && v.host == w.host
    case _ => true
  }

  lemma {:induction false} SetLeaves(v: Vars, x: StatusVar, code: nat)
    requires Fits(x) && Code(x) != code
    ensures SameField(v, Set(v, x), code)
  {
  }

  lemma {:induction false} SetAllLeaves(v: Vars, xs: seq<StatusVar>, code: nat)
    requires AllFit(xs) && Lacks(xs, code)
    ensures SameField(v, SetAll(v, xs), code)
    decreases |xs|
  {
    if xs != [] {
      SetLeaves(v, xs[0], code);
      if !Stops(xs[0]) { SetAllLeaves(Set(v, xs[0]), xs[1..], code); }
    }
  }

  lemma {:induction false} SetAllLeavesCatalog(v: Vars, xs: seq<StatusVar>)
    requires AllFit(xs) && Lacks(xs, 2) && Lacks(xs, 6)
    ensures SetAll(v, xs).catalog == v.catalog
    decreases |xs|
  {
    if xs != [] && !Stops(xs[0]) { SetAllLeavesCatalog(Set(v, xs[0]), xs[1..]); }
  }

  /** What a field holds when no variable has set it. */
  lemma {:induction false} AbsentFields(xs: seq<StatusVar>)
    requires AllFit(xs)
    ensures var v := SetAll(NoVars, xs);
      && (Lacks(xs, 0) ==> v.flags2 == None)
      && (Lacks(xs, 1) ==> v.sqlMode == None)
      && (Lacks(xs, 2) && Lacks(xs, 6) ==> v.catalog == [] && v.catalogEnd == None)
      && (Lacks(xs, 3) ==> v.increment == 1 && v.offset == 1)
      && (Lacks(xs, 4) ==> v.charset == None)
      && (Lacks(xs, 5) ==> v.timeZone == [])
  {
    if Lacks(xs, 0) { SetAllLeaves(NoVars, xs, 0); }
    if Lacks(xs, 1) { SetAllLeaves(NoVars, xs, 1); }
    if Lacks(xs, 2) { SetAllLeaves(NoVars, xs, 2); }
    if Lacks(xs, 2) && Lacks(xs, 6) { SetAllLeavesCatalog(NoVars, xs); }
    if Lacks(xs, 3) { SetAllLeaves(NoVars, xs, 3); }
    if Lacks(xs, 4) { SetAllLeaves(NoVars, xs, 4); }
    if Lacks(xs, 5) { SetAllLeaves(NoVars, xs, 5); }
  }

  lemma {:induction false} AbsentLaterFields(xs: seq<StatusVar>)
    requires AllFit(xs)
    ensures var v := SetAll(NoVars, xs);
      && (Lacks(xs, 7) ==> v.lcTimeNames == 0)
      && (Lacks(xs, 8) ==> v.charsetDatabase == 0)
      && (Lacks(xs, 9) ==> v.tableMap == 0)
      && (Lacks(xs, 10) ==> v.masterDataWritten == 0)
      && (Lacks(xs, 11) ==> v.user == [] && v.host == [])
  {
    if Lacks(xs, 7) { SetAllLeaves(NoVars, xs, 7); }
    if Lacks(xs, 8) { SetAllLeaves(NoVars, xs, 8); }
    if Lacks(xs, 9) { SetAllLeaves(NoVars, xs, 9); }
    if Lacks(xs, 10) { SetAllLeaves(NoVars, xs, 10); }
    if Lacks(xs, 11) { SetAllLeaves(NoVars, xs, 11); }
  }

  /** Nothing after an invoker or an unknown variable has any effect. */
  lemma {:induction false} NothingAfterStop(v: Vars, front: seq<StatusVar>, x: StatusVar, rest: seq<StatusVar>)
    requires x.Invoker? || x.Unknown?
    ensures SetAll(v, front + [x] + rest) == SetAll(v, front + [x])
    decreases |front|
  {
    var long, short := front + [x] + rest, front + [x];
    if front != [] && !Stops(front[0]) {
      NothingAfterStop(Set(v, front[0]), front[1..], x, rest);
      assert long[1..] == front[1..] + [x] + rest && short[1..] == front[1..] + [x];
    }
  }

  /** The documented codes. */
  lemma {:induction false} Codes(n: nat, name: seq<Byte>, other: seq<Byte>, last: Byte)
    ensures Code(Flags2(n)) == 0 && Code(SqlMode(n)) == 1 && Code(OldCatalog(name, last)) == 2
    ensures Code(AutoIncrement(n, n)) == 3 && Code(Charset(name)) == 4 && Code(TimeZone(name)) == 5
    ensures Code(Catalog(name)) == 6 && Code(LcTimeNames(n)) == 7 && Code(CharsetDatabase(n)) == 8
    ensures Code(TableMap(n)) == 9 && Code(MasterDataWritten(n)) == 10 && Code(Invoker(name, other)) == 11
  {
  }

  //////////////////////////////////////////////////////////////////////////////
  // The single allocation
  //////////////////////////////////////////////////////////////////////////////

  /** Where the strings of an event start in its buffer. */
  datatype Places = Places(catalog: nat, timeZone: nat, user: nat, host: nat, db: nat)

  /** A string with its end byte; an empty one is not copied. */
  function Piece(name: seq<Byte>, last: Byte): seq<Byte> {
    if name == [] then [] else name + [last]
  }

  function CatalogEnd(v: Vars): Byte {
    if v.catalogEnd.Some? then v.catalogEnd.value else 0
  }

  function PlacesOf(v: Vars): Places {
    var timeZone := |Piece(v.catalog, CatalogEnd(v))|;
    var user := timeZone + |Piece(v.timeZone, 0)|;
    var host := user + |Piece(v.user, 0)|;
    Places(0, timeZone, user, host, host + |Piece(v.host, 0)|)
  }

  /** The copied strings. */
  function Strings(v: Vars): seq<Byte> {
    Piece(v.catalog, CatalogEnd(v)) + Piece(v.timeZone, 0) + Piece(v.user, 0) + Piece(v.host, 0)
  }

  /** The strings, then the database name and the query as they came, then a zero. */
  function Filled(v: Vars, data: seq<Byte>): seq<Byte> {
    Strings(v) + data + [0]
  }

  /** What is allocated. */
  function Allocated(v: Vars, data: seq<Byte>): nat {
    |v.catalog| + 1 + |v.timeZone| + 1 + |data| + 1 + |v.user| + 1 + |v.host| + 1
  }

  /** `copy_str_and_move`, for strings that are not empty. */
  method CopyPiece(dst: array<Byte>, at: nat, name: seq<Byte>, last: Byte) returns (next: nat)
    requires at + |name| + 1 <= dst.Length
    modifies dst
    ensures next == at + |Piece(name, last)|
    ensures dst[..next] == old(dst[..at]) + Piece(name, last)
  {
    if name == [] { return at; }
    Copy(dst, at, name);
    dst[at + |name|] := last;
    next := at + |name| + 1;
    assert dst[..next] == dst[..next - 1] + [last];
  }

  method FillStrings(buf: array<Byte>, v: Vars) returns (places: Places)
    requires buf.Length >= |v.catalog| + |v.timeZone| + |v.user| + |v.host| + 4
    modifies buf
    ensures places == PlacesOf(v) && places.db == |Strings(v)| <= |v.catalog| + |v.timeZone| + |v.user| + |v.host| + 4
    ensures buf[..places.db] == Strings(v)
  {
    assert buf[..0] == [];
    var timeZone := CopyPiece(buf, 0, v.catalog, CatalogEnd(v));
    var user := CopyPiece(buf, timeZone, v.timeZone, 0);
    var host := CopyPiece(buf, user, v.user, 0);
    var db := CopyPiece(buf, host, v.host, 0);
    return Places(0, timeZone, user, host, db);
  }

  /** Every copy stays within the allocation. */
  method Fill(v: Vars, data: seq<Byte>) returns (buf: array<Byte>, places: Places)
    ensures fresh(buf) && buf.Length == Allocated(v, data) >= |Filled(v, data)|
    ensures buf[..|Filled(v, data)|] == Filled(v, data) && places == PlacesOf(v)
  {
    buf := new Byte[Allocated(v, data)];
    places := FillStrings(buf, v);
    Copy(buf, places.db, data);
    buf[places.db + |data|] := 0;
    assert buf[..places.db + |data| + 1] == buf[..places.db + |data|] + [0];
  }

  //////////////////////////////////////////////////////////////////////////////
  // The whole event
  //////////////////////////////////////////////////////////////////////////////

  const UINT: nat := 0x1_0000_0000

  /** A decoded event; `buffer` is the filled part of the allocation, `query` an offset into it. */
  datatype Decoded = Decoded(threadId: nat, execTime: nat, dbLen: nat, errorCode: nat, vars: Vars,
                             buffer: seq<Byte>, places: Places, query: nat, qLen: nat)

  /** The name length is read through a signed `char` and widened to 32 bits. */
  function SignExtended(b: Byte): nat {
    if b < 128 then b else b + 0xffff_ff00
  }

  /** The bytes that are read as header are there; this holds of every header of 11 or of at least 13 bytes. */
  predicate HeaderThere(b: seq<Byte>, post: nat) {
    |b| >= if post == QUERY_HEADER_MINIMAL_LEN then QUERY_HEADER_MINIMAL_LEN else QUERY_HEADER_LEN
  }

  /** The length of the status variables; headers of servers before 5.0 have none. */
  function StatusLength(b: seq<Byte>, post: nat): nat
    requires |b| >= post && HeaderThere(b, post)
  {
    if post == QUERY_HEADER_MINIMAL_LEN then 0 else NumberAt(b, 11, 2)
  }

  function Initial(post: nat, written: nat): Vars {
    if post == QUERY_HEADER_MINIMAL_LEN then NoVars.(masterDataWritten := written) else NoVars
  }

  /** The header fields and the buffer. */
  function Assembled(b: seq<Byte>, data: seq<Byte>, v: Vars): Decoded
    requires |b| >= QUERY_HEADER_MINIMAL_LEN
  {
    var dbLen := SignExtended(b[8]);
    Decoded(NumberAt(b, 0, 4), NumberAt(b, 4, 4), dbLen, NumberAt(b, 9, 2), v, Filled(v, data), PlacesOf(v),
            PlacesOf(v).db + dbLen + 1, (|data| - dbLen - 1) % UINT)
  }

  /** Decoding behind the common header: nothing if the status variables do not fit. */
  function DecodedBody(b: seq<Byte>, post: nat, written: nat): Option<Decoded>
    requires |b| >= post && HeaderThere(b, post)
  {
    var status := StatusLength(b, post);
    if status > |b| - post || status > MAX_SIZE_LOG_EVENT_STATUS then None
    else match AllVars(b[post..], status, 0, Initial(post, written))
      case None => None
      case Some(v) => Some(Assembled(b, b[post + status..], v))
  }

  /** Decoding as a function: nothing for an event that is too short. */
  function DecodedEvent(event: seq<Byte>, common: nat, post: nat, written: nat): Option<Decoded>
    requires |event| >= common + post ==> HeaderThere(event[common..], post)
  {
    if |event| < common + post then None else DecodedBody(event[common..], post, written)
  }

  /** `Query_log_event::Query_log_event`, `written` being the length in the common header. */
  method Decode(event: seq<Byte>, common: nat, post: nat, written: nat) returns (r: Option<Decoded>)
    requires |event| >= common + post ==> HeaderThere(event[common..], post)
    ensures r == DecodedEvent(event, common, post, written)
  {
    if |event| < common + post { return None; }
    r := DecodeBody(event[common..], post, written);
  }

  method DecodeBody(b: seq<Byte>, post: nat, written: nat) returns (r: Option<Decoded>)
    requires |b| >= post && HeaderThere(b, post)
    ensures r == DecodedBody(b, post, written)
  {
    var dataLen, status := |b| - post, 0;
    if post != QUERY_HEADER_MINIMAL_LEN {
      status := NumberAt(b, 11, 2);
      if status > (if dataLen < MAX_SIZE_LOG_EVENT_STATUS then dataLen else MAX_SIZE_LOG_EVENT_STATUS) { return None; }
    }
    var vars := ReadVars(b[post..], status, Initial(post, written));
    if vars.None? { return None; }
    var d := Assemble(b, b[post + status..], vars.value);
    return Some(d);
  }

  /** The header fields and the filled buffer, with the offsets of the name and the query. */
  method Assemble(b: seq<Byte>, data: seq<Byte>, v: Vars) returns (d: Decoded)
    requires |b| >= QUERY_HEADER_MINIMAL_LEN
    ensures d == Assembled(b, data, v)
  {
    var dbLen := SignExtended(b[8]);
    var buf, places := Fill(v, data);
    FilledSize(v, data);
    var query, qLen := places.db + dbLen + 1, (|data| - dbLen - 1) % UINT;
    d := Decoded(NumberAt(b, 0, 4), NumberAt(b, 4, 4), dbLen, NumberAt(b, 9, 2), v,
                 buf[..places.db + |data| + 1], places, query, qLen);
  }

  lemma {:induction false} FilledSize(v: Vars, data: seq<Byte>)
    ensures |Filled(v, data)| == PlacesOf(v).db + |data| + 1
  {
  }

  /** An event as the master writes it. */
  datatype Event = Event(threadId: nat, execTime: nat, errorCode: nat, vars: seq<StatusVar>, db: seq<Byte>,
                         query: seq<Byte>)

  predicate EventFits(ev: Event) {
    && ev.threadId < Limit(4) && ev.execTime < Limit(4) && ev.errorCode < Limit(2)
    && AllFit(ev.vars) && |WrittenAll(ev.vars)| < Limit(2) && |ev.db| < 256 && |ev.query| < UINT
  }

  function Header(ev: Event): seq<Byte>
    requires EventFits(ev)
  {
    Bytes(ev.threadId, 4) +
    (Bytes(ev.execTime, 4) + ([|ev.db|] + (Bytes(ev.errorCode, 2) + Bytes(|WrittenAll(ev.vars)|, 2))))
  }

  function Data(ev: Event): seq<Byte> {
    ev.db + [0] + ev.query
  }

  /** The post-header, its extension by derived events, and the variable part. */
  function Body(ev: Event, extra: seq<Byte>): seq<Byte>
    requires EventFits(ev)
  {
    Header(ev) + extra + (WrittenAll(ev.vars) + Data(ev))
  }

  lemma {:induction false} HeaderReads(ev: Event, b: seq<Byte>)
    requires EventFits(ev) && Stands(b, 0, Header(ev))
    ensures |Header(ev)| == 13
    ensures NumberAt(b, 0, 4) == ev.threadId && NumberAt(b, 4, 4) == ev.execTime && b[8] == |ev.db|
    ensures NumberAt(b, 9, 2) == ev.errorCode && NumberAt(b, 11, 2) == |WrittenAll(ev.vars)|
  {
    var status := Bytes(|WrittenAll(ev.vars)|, 2);
    var rest2 := Bytes(ev.errorCode, 2) + status;
    var rest1 := [|ev.db| as Byte] + rest2;
    StandsSplit(b, 0, Bytes(ev.threadId, 4), Bytes(ev.execTime, 4) + rest1);
    StandsSplit(b, 4, Bytes(ev.execTime, 4), rest1);
    CodeStands(b, 8, |ev.db|, rest2);
    StandsSplit(b, 9, Bytes(ev.errorCode, 2), status);
    NumberStands(b, 0, ev.threadId, 4);
    NumberStands(b, 4, ev.execTime, 4);
    NumberStands(b, 9, ev.errorCode, 2);
    NumberStands(b, 11, |WrittenAll(ev.vars)|, 2);
  }

  lemma {:induction false} BodyParts(ev: Event, extra: seq<Byte>, b: seq<Byte>, post: nat, status: nat)
    requires EventFits(ev) && b == Body(ev, extra) && post == 13 + |extra| && status == |WrittenAll(ev.vars)|
    ensures Stands(b, 0, Header(ev)) && |Header(ev)| == 13
    ensures |b| >= post + status && b[post..] == WrittenAll(ev.vars) + Data(ev) && b[post + status..] == Data(ev)
  {
    assert |Header(ev)| == 13;
    var vars, data := WrittenAll(ev.vars), Data(ev);
    assert b[..13] == Header(ev);
    assert b[post..] == vars + data;
    assert b[post..][status..] == data;
  }

  lemma {:induction false} VarsRead(ev: Event, s: seq<Byte>, status: nat)
    requires EventFits(ev) && s == WrittenAll(ev.vars) + Data(ev) && status == |WrittenAll(ev.vars)|
    ensures status <= |s| && AllVars(s, status, 0, NoVars) == Some(SetAll(NoVars, ev.vars))
  {
    assert s[0..status] == WrittenAll(ev.vars);
    ReadsBackAll(s, status, 0, NoVars, ev.vars);
  }

  lemma {:induction false} DecodesBody(b: seq<Byte>, ev: Event, extra: seq<Byte>, post: nat, status: nat, written: nat)
    requires EventFits(ev) && b == Body(ev, extra) && post == 13 + |extra| && status == |WrittenAll(ev.vars)|
    ensures |b| >= post
    ensures DecodedBody(b, post, written) ==
      if status <= MAX_SIZE_LOG_EVENT_STATUS then Some(Assembled(b, Data(ev), SetAll(NoVars, ev.vars))) else None
  {
    BodyParts(ev, extra, b, post, status);
    HeaderReads(ev, b);
    VarsRead(ev, b[post..], status);
    DecodedBodyIs(b, post, status, written, SetAll(NoVars, ev.vars), Data(ev));
  }

  lemma {:induction false} DecodedBodyIs(b: seq<Byte>, post: nat, status: nat, written: nat, v: Vars, data: seq<Byte>)
    requires post >= QUERY_HEADER_LEN && |b| >= post + status
    requires NumberAt(b, 11, 2) == status && b[post + status..] == data
    requires AllVars(b[post..], status, 0, NoVars) == Some(v)
    ensures DecodedBody(b, post, written) ==
      if status <= MAX_SIZE_LOG_EVENT_STATUS then Some(Assembled(b, data, v)) else None
  {
  }

  /**
   The decoder inverts the layout: it accepts an event exactly when its status variables are
   within the limit, and then recovers header, variables and data.
   */
  lemma {:induction false} DecodesEvent(prefix: seq<Byte>, ev: Event, extra: seq<Byte>, written: nat)
    requires EventFits(ev)
    ensures var r := DecodedEvent(prefix + Body(ev, extra), |prefix|, QUERY_HEADER_LEN + |extra|, written);
      && (r.Some? <==> |WrittenAll(ev.vars)| <= MAX_SIZE_LOG_EVENT_STATUS)
      && (r.Some? ==>
          && r.value.threadId == ev.threadId && r.value.execTime == ev.execTime && r.value.errorCode == ev.errorCode
          && r.value == Assembled(Body(ev, extra), Data(ev), SetAll(NoVars, ev.vars)))
  {
    var b := Body(ev, extra);
    assert (prefix + b)[|prefix|..] == b;
    DecodesBody(b, ev, extra, 13 + |extra|, |WrittenAll(ev.vars)|, written);
    BodyParts(ev, extra, b, 13 + |extra|, |WrittenAll(ev.vars)|);
    HeaderReads(ev, b);
  }

  /** The bytes at an offset of the buffer, if they are there. */
  function Slice(buf: seq<Byte>, at: nat, n: nat): Option<seq<Byte>> {
    if at + n <= |buf| then Some(buf[at..at + n]) else None
  }

  lemma {:induction false} SliceOf(a: seq<Byte>, b: seq<Byte>, c: seq<Byte>)
    ensures Slice(a + b + c, |a|, |b|) == Some(b)
  {
  }

  /** A copied string is found at its place; an empty one needs none. */
  lemma {:induction false} PieceFound(buf: seq<Byte>, before: seq<Byte>, name: seq<Byte>, last: Byte,
                                      after: seq<Byte>, at: nat)
    requires buf == before + Piece(name, last) + after && at == |before|
    ensures Slice(buf, at, |name|) == Some(name)
  {
    if name == [] {
      SliceOf(before, [], after);
      assert before + [] + after == buf;
    } else {
      assert before + name + ([last] + after) == buf;
      SliceOf(before, name, [last] + after);
    }
  }

  /** Catalog, time zone, user and host are found where the event says. */
  lemma {:induction false} StringsFound(v: Vars, data: seq<Byte>)
    ensures var buf, places := Filled(v, data), PlacesOf(v);
      && Slice(buf, places.catalog, |v.catalog|) == Some(v.catalog)
      && Slice(buf, places.timeZone, |v.timeZone|) == Some(v.timeZone)
      && Slice(buf, places.user, |v.user|) == Some(v.user)
      && Slice(buf, places.host, |v.host|) == Some(v.host)
  {
    var buf, places := Filled(v, data), PlacesOf(v);
    var c, t, u, h := Piece(v.catalog, CatalogEnd(v)), Piece(v.timeZone, 0), Piece(v.user, 0), Piece(v.host, 0);
    Regroup(c, t, u, h, data, buf);
    PieceFound(buf, [], v.catalog, CatalogEnd(v), t + (u + (h + data + [0])), 0);
    PieceFound(buf, c, v.timeZone, 0, u + (h + data + [0]), places.timeZone);
    PieceFound(buf, c + t, v.user, 0, h + data + [0], places.user);
    PieceFound(buf, c + t + u, v.host, 0, data + [0], places.host);
  }

  /** The byte behind a copied string ends it: the event's own end byte for an old catalog, else zero. */
  lemma {:induction false} StringsEnd(v: Vars, data: seq<Byte>)
    ensures var buf, p := Filled(v, data), PlacesOf(v);
      && |buf| == p.db + |data| + 1 && buf[p.db..p.db + |data|] == data && buf[p.db + |data|] == 0
      && p.catalog == 0 && p.timeZone <= p.user <= p.host <= p.db
      && (v.catalog != [] ==> buf[|v.catalog|] == if v.catalogEnd.Some? then v.catalogEnd.value else 0)
      && (v.timeZone != [] ==> p.user > 0 && buf[p.user - 1] == 0)
      && (v.user != [] ==> p.host > 0 && buf[p.host - 1] == 0)
      && (v.host != [] ==> p.db > 0 && buf[p.db - 1] == 0)
  {
    var c, t, u, h := Piece(v.catalog, CatalogEnd(v)), Piece(v.timeZone, 0), Piece(v.user, 0), Piece(v.host, 0);
    assert Strings(v) == c + t + u + h;
  }

  lemma {:induction false} Regroup(c: seq<Byte>, t: seq<Byte>, u: seq<Byte>, h: seq<Byte>, data: seq<Byte>,
                                   buf: seq<Byte>)
    requires buf == c + t + u + h + data + [0]
    ensures buf == [] + c + (t + (u + (h + data + [0])))
    ensures buf == c + t + (u + (h + data + [0]))
    ensures buf == c + t + u + (h + data + [0])
    ensures buf == c + t + u + h + (data + [0])
  {
    assert c + t + u + h + data + [0] == c + t + u + (h + data + [0]);
    assert (c + t + u) + (h + data + [0]) == c + t + (u + (h + data + [0]));
  }

  /** Database name and query are found where the event says exactly when the name is shorter than 128 bytes. */
  lemma {:induction false} NameAndQueryFound(b: seq<Byte>, ev: Event, v: Vars)
    requires EventFits(ev) && |b| >= QUERY_HEADER_MINIMAL_LEN && b[8] == |ev.db|
    ensures var d := Assembled(b, Data(ev), v);
      (Slice(d.buffer, d.places.db, d.dbLen) == Some(ev.db) && Slice(d.buffer, d.query, d.qLen) == Some(ev.query))
      <==> |ev.db| < 128
  {
    var d := Assembled(b, Data(ev), v);
    if |ev.db| < 128 { DataFound(Strings(v), ev, d.buffer); }
  }

  lemma {:induction false} DataFound(head: seq<Byte>, ev: Event, buf: seq<Byte>)
    requires buf == head + Data(ev) + [0]
    ensures Slice(buf, |head|, |ev.db|) == Some(ev.db)
    ensures Slice(buf, |head| + |ev.db| + 1, |ev.query|) == Some(ev.query)
  {
    assert buf == head + ev.db + ([0] + ev.query + [0]);
    SliceOf(head, ev.db, [0] + ev.query + [0]);
    assert buf == (head + ev.db + [0]) + ev.query + [0];
    SliceOf(head + ev.db + [0], ev.query, [0]);
  }

  /** An event is recovered whole: strings, name and query, for names shorter than 128 bytes and only for those. */
  lemma {:induction false} RecoversEvent(prefix: seq<Byte>, ev: Event, extra: seq<Byte>, written: nat)
    requires EventFits(ev) && |WrittenAll(ev.vars)| <= MAX_SIZE_LOG_EVENT_STATUS
    ensures var r := DecodedEvent(prefix + Body(ev, extra), |prefix|, QUERY_HEADER_LEN + |extra|, written);
      && r.Some? && r.value.vars == SetAll(NoVars, ev.vars)
      && var d := r.value;
      && Slice(d.buffer, d.places.catalog, |d.vars.catalog|) == Some(d.vars.catalog)
      && Slice(d.buffer, d.places.timeZone, |d.vars.timeZone|) == Some(d.vars.timeZone)
      && Slice(d.buffer, d.places.user, |d.vars.user|) == Some(d.vars.user)
      && Slice(d.buffer, d.places.host, |d.vars.host|) == Some(d.vars.host)
      && (|ev.db| < 128 <==>
          Slice(d.buffer, d.places.db, d.dbLen) == Some(ev.db) && Slice(d.buffer, d.query, d.qLen) == Some(ev.query))
  {
    DecodesEvent(prefix, ev, extra, written);
    var b := Body(ev, extra);
    BodyParts(ev, extra, b, 13 + |extra|, |WrittenAll(ev.vars)|);
    HeaderReads(ev, b);
    var v := SetAll(NoVars, ev.vars);
    StringsFound(v, Data(ev));
    NameAndQueryFound(b, ev, v);
  }

  /** In every accepted event a field whose variable was not written has its default: 1, none, empty or 0. */
  lemma {:induction false} DecodesDefaults(prefix: seq<Byte>, ev: Event, extra: seq<Byte>, written: nat)
    requires EventFits(ev) && |WrittenAll(ev.vars)| <= MAX_SIZE_LOG_EVENT_STATUS
    ensures var r := DecodedEvent(prefix + Body(ev, extra), |prefix|, QUERY_HEADER_LEN + |extra|, written);
      && r.Some? && var v, xs := r.value.vars, ev.vars;
      && (Lacks(xs, 0) ==> v.flags2 == None) && (Lacks(xs, 1) ==> v.sqlMode == None)
      && (Lacks(xs, 2) && Lacks(xs, 6) ==> v.catalog == [])
      && (Lacks(xs, 3) ==> v.increment == 1 && v.offset == 1)
      && (Lacks(xs, 4) ==> v.charset == None) && (Lacks(xs, 5) ==> v.timeZone == [])
      && (Lacks(xs, 7) ==> v.lcTimeNames == 0) && (Lacks(xs, 8) ==> v.charsetDatabase == 0)
      && (Lacks(xs, 9) ==> v.tableMap == 0) && (Lacks(xs, 10) ==> v.masterDataWritten == 0)
      && (Lacks(xs, 11) ==> v.user == [] && v.host == [])
  {
    DecodesEvent(prefix, ev, extra, written);
    AbsentFields(ev.vars);
    AbsentLaterFields(ev.vars);
  }

  /** An event of a server before 5.0: no status variables, all fields at their defaults but for the original size. */
  lemma {:induction false} DecodesOldEvent(head: seq<Byte>, data: seq<Byte>, written: nat)
    requires |head| == QUERY_HEADER_MINIMAL_LEN
    ensures var r := DecodedEvent(head + data, 0, QUERY_HEADER_MINIMAL_LEN, written);
      && r.Some? && r.value == Assembled(head + data, data, r.value.vars)
      && r.value.vars == NoVars.(masterDataWritten := written) && r.value.vars.increment == 1
  {
    var b := head + data;
    assert b[0..] == b && b[11..] == data;
  }

  /** Neither the name nor the query of the event is found in what was decoded. */
  ghost predicate Misses(r: Option<Decoded>, ev: Event) {
    && r.Some?
    && Slice(r.value.buffer, r.value.places.db, r.value.dbLen) != Some(ev.db)
    && Slice(r.value.buffer, r.value.query, r.value.qLen) != Some(ev.query)
  }

  /** With a name of 128 bytes or more an accepted event loses both its name and its query. */
  lemma {:induction false} LongNameLost(ev: Event)
    requires EventFits(ev) && |WrittenAll(ev.vars)| <= MAX_SIZE_LOG_EVENT_STATUS && |ev.db| >= 128
    ensures Misses(DecodedEvent(Body(ev, []), 0, QUERY_HEADER_LEN, 0), ev)
  {
    var b := Body(ev, []);
    DecodesEvent([], ev, [], 0);
    assert [] + b == b;
    BodyParts(ev, [], b, QUERY_HEADER_LEN, |WrittenAll(ev.vars)|);
    HeaderReads(ev, b);
    LongNameLengths(b, ev, SetAll(NoVars, ev.vars));
  }

  lemma {:induction false} LongNameLengths(b: seq<Byte>, ev: Event, v: Vars)
    requires EventFits(ev) && |b| >= QUERY_HEADER_MINIMAL_LEN && b[8] == |ev.db| >= 128
    ensures Assembled(b, Data(ev), v).dbLen != |ev.db| && Assembled(b, Data(ev), v).qLen != |ev.query|
  {
  }

  /** Such an event: a name of 128 zero bytes, and nothing else. */
  lemma {:induction false} LongNameEvent()
    ensures exists ev ::
      EventFits(ev) && |ev.db| == 128 && Misses(DecodedEvent(Body(ev, []), 0, QUERY_HEADER_LEN, 0), ev)
  {
    var ev := Event(0, 0, 0, [], Zeros(128), []);
    Limits();
    LongNameLost(ev);
  }

  //////////////////////////////////////////////////////////////////////////////
  // The limit on status variables
  //////////////////////////////////////////////////////////////////////////////

  /** A variable of a server that writes the catalog without an end byte, with names of the documented lengths. */
  predicate Documented(x: StatusVar) {
    Fits(x) && !x.OldCatalog? && !x.Unknown? && (x.Invoker? ==> |x.user| <= 16 && |x.host| <= 60)
  }

  /** The size of the largest documented variable with this code, its code included. */
  function Largest(code: nat): nat {
    match code
    case 0 => 5 case 1 => 9 case 3 => 5 case 4 => 7 case 5 => 257 case 6 => 257
    case 7 => 3 case 8 => 3 case 9 => 9 case 10 => 5 case 11 => 79
    case _ => 0
  }

  /** The size of one variable of each code from `k` on. */
  function Room(k: nat): nat
    decreases 12 - k
  {
    if k >= 12 then 0 else Largest(k) + Room(k + 1)
  }

  lemma {:induction false} RoomFrom(k: nat, code: nat)
    requires k <= code < 12
    ensures Room(k) >= Largest(code) + Room(code + 1)
    decreases code - k
  {
    if k < code { RoomFrom(k + 1, code); }
  }

  lemma {:induction false} WithinRoom(xs: seq<StatusVar>, k: nat)
    requires (forall i :: 0 <= i < |xs| ==> Documented(xs[i])) && Growing(xs)
    requires forall i :: 0 <= i < |xs| ==> Code(xs[i]) >= k
    ensures AllFit(xs) && |WrittenAll(xs)| <= Room(k)
    decreases |xs|
  {
    if xs != [] {
      WithinRoom(xs[1..], Code(xs[0]) + 1);
      RoomFrom(k, Code(xs[0]));
      assert |Written(xs[0])| <= Largest(Code(xs[0]));
    }
  }

  /**
   The limit is one byte short: documented variables take up to 639 bytes, so that the decoder
   refuses a documented event exactly when all its variables are there at their largest.
   */
  lemma {:induction false} LimitIsOneShort(prefix: seq<Byte>, ev: Event, written: nat)
    requires EventFits(ev) && Growing(ev.vars) && forall i :: 0 <= i < |ev.vars| ==> Documented(ev.vars[i])
    ensures |WrittenAll(ev.vars)| <= MAX_SIZE_LOG_EVENT_STATUS + 1
    ensures DecodedEvent(prefix + Body(ev, []), |prefix|, QUERY_HEADER_LEN, written).None?
      <==> |WrittenAll(ev.vars)| == MAX_SIZE_LOG_EVENT_STATUS + 1
  {
    WithinRoom(ev.vars, 0);
    RoomSize();
    DecodesEvent(prefix, ev, [], written);
  }

  lemma {:induction false} RoomSize()
    ensures Room(0) == MAX_SIZE_LOG_EVENT_STATUS + 1
  {
    assert Room(8) == 96;
    assert Room(4) == 620;
  }

  lemma {:induction false} Prepends(x: StatusVar, rest: seq<StatusVar>, xs: seq<StatusVar>)
    requires Fits(x) && AllFit(rest) && xs == [x] + rest
    ensures AllFit(xs) && |WrittenAll(xs)| == 1 + |Payload(x)| + |WrittenAll(rest)|
  {
    assert xs[1..] == rest;
  }

  function Zeros(n: nat): (s: seq<Byte>)
    ensures |s| == n
  {
    seq(n, _ => 0)
  }

  /** Everything at its largest: first the variables with a string, then all. */
  const LargestTail: seq<StatusVar> :=
    [LcTimeNames(0), CharsetDatabase(0), TableMap(0), MasterDataWritten(0), Invoker(Zeros(16), Zeros(60))]

  const LargestMiddle: seq<StatusVar> := [Charset(Zeros(6)), TimeZone(Zeros(255)), Catalog(Zeros(255))] + LargestTail

  const LargestVars: seq<StatusVar> := [Flags2(0), SqlMode(0), AutoIncrement(0, 0)] + LargestMiddle

  lemma {:induction false} LargestTailSize()
    ensures AllFit(LargestTail) && |WrittenAll(LargestTail)| == 99
  {
    var xs := LargestTail;
    Prepends(xs[4], [], xs[4..]);
    Prepends(xs[3], xs[4..], xs[3..]);
    Prepends(xs[2], xs[3..], xs[2..]);
    Prepends(xs[1], xs[2..], xs[1..]);
    Prepends(xs[0], xs[1..], xs);
  }

  lemma {:induction false} LargestMiddleSize()
    ensures AllFit(LargestMiddle) && |WrittenAll(LargestMiddle)| == 620
  {
    var xs := LargestMiddle;
    LargestTailSize();
    assert xs[3..] == LargestTail;
    Prepends(Catalog(Zeros(255)), xs[3..], xs[2..]);
    Prepends(TimeZone(Zeros(255)), xs[2..], xs[1..]);
    Prepends(Charset(Zeros(6)), xs[1..], xs);
  }

  lemma {:induction false} LargestSize()
    ensures AllFit(LargestVars) && |WrittenAll(LargestVars)| == MAX_SIZE_LOG_EVENT_STATUS + 1
  {
    var xs := LargestVars;
    LargestMiddleSize();
    assert xs[3..] == LargestMiddle;
    Prepends(AutoIncrement(0, 0), xs[3..], xs[2..]);
    Prepends(SqlMode(0), xs[2..], xs[1..]);
    Prepends(Flags2(0), xs[1..], xs);
  }

  lemma {:induction false} LargestDocumented()
    ensures Growing(LargestVars) && forall i :: 0 <= i < |LargestVars| ==> Documented(LargestVars[i])
  {
  }

  lemma {:induction false} TooLargeRefused(xs: seq<StatusVar>)
    requires AllFit(xs) && |WrittenAll(xs)| == MAX_SIZE_LOG_EVENT_STATUS + 1
    ensures EventFits(Event(0, 0, 0, xs, [], []))
    ensures DecodedEvent(Body(Event(0, 0, 0, xs, [], []), []), 0, QUERY_HEADER_LEN, 0).None?
  {
    Limits();
    var ev := Event(0, 0, 0, xs, [], []);
    DecodesEvent([], ev, [], 0);
    assert [] + Body(ev, []) == Body(ev, []);
  }

  /** An event that is documented and refused. */
  lemma {:induction false} LargestRefused()
    ensures exists xs :: (
      && Growing(xs) && (forall i :: 0 <= i < |xs| ==> Documented(xs[i]))
      && EventFits(Event(0, 0, 0, xs, [], []))
      && DecodedEvent(Body(Event(0, 0, 0, xs, [], []), []), 0, QUERY_HEADER_LEN, 0).None?)
  {
    LargestSize();
    LargestDocumented();
    TooLargeRefused(LargestVars);
  }
}
