/** The symbol service with its change counter, and the offset cache of a member access,
    which trusts its entry only while that counter stands still. */
module SymbolCache {
  import opened Common

  const WORD: int := 0x1_0000_0000_0000_0000

  datatype Member = Member(name: string, offset: int, typeName: string)
  datatype TypeInfo = TypeInfo(name: string, isPointer: bool, isArray: bool, elementType: string, members: seq<Member>)

  const EMPTY_INFO := TypeInfo("", false, false, "", [])

  /** An entry written to the type table. */
  datatype Entry = Entry(key: string, info: TypeInfo)

  /** What reading a type from the debug information does: the entries written on the way
      and the type itself.  It may depend on the types already known. */
  datatype Parse = Unreadable | Parsed(writes: seq<Entry>, info: TypeInfo)

  type Types = map<string, TypeInfo>
  type Parser = (string, Types) -> Parse

  /** `changes` counts every change; the service exposes it modulo 2^64. */
  datatype Service = Service(types: Types, index: set<string>, open: bool, parser: Parser, changes: nat)

  function Generation(s: Service): nat {
    s.changes % WORD
  }

  // ---- Names -----------------------------------------------------------------------

  function Find(name: string, c: char): (r: Option<nat>)
    ensures r.Some? ==> r.value < |name| && name[r.value] == c && c !in name[..r.value]
    ensures r.None? ==> c !in name
  {
    if name == "" then None
    else if name[0] == c then Some(0)
    else
      var rest := Find(name[1..], c);
      if rest.None? then None else Some(rest.value + 1)
  }

  predicate IsSpace(c: char) {
    c == ' ' || '\t' <= c <= '\r'
  }

  function TrimEnd(name: string): (r: string)
    ensures r <= name && forall k :: |r| <= k < |name| ==> IsSpace(name[k])
    ensures r != "" ==> !IsSpace(r[|r| - 1])
  {
    if name != "" && IsSpace(name[|name| - 1]) then TrimEnd(name[..|name| - 1]) else name
  }

  // ---- The service -----------------------------------------------------------------

  function Write(s: Service, key: string, info: TypeInfo): Service {
    s.(types := s.types[key := info], changes := s.changes + 1)
  }

  function WriteAll(s: Service, writes: seq<Entry>): Service
    decreases |writes|
  {
    if writes == [] then s else WriteAll(Write(s, writes[0].key, writes[0].info), writes[1..])
  }

  function CacheTypeByName(s: Service, name: string): Service {
    if name in s.types || name !in s.index then s
    else match s.parser(name, s.types)
    case Unreadable => s
    case Parsed(writes, info) => Write(WriteAll(s, writes), name, info)
  }

  function CacheTypeInfo(s: Service, name: string, parsed: Parse): Service {
    if name == "" || name in s.types || parsed.Unreadable? then s
    else
      var s := WriteAll(s, parsed.writes);
      if parsed.info.name == "" then s else Write(s, parsed.info.name, parsed.info)
  }

  function PointerInfo(name: string, element: string): TypeInfo {
    TypeInfo(name, true, false, element, [])
  }

  /** The type of a name, and the service after looking it up. */
  function GetTypeInfo(s: Service, name: string): (TypeInfo, Service)
    decreases |name|
  {
    if name == "" then (EMPTY_INFO, s)
    else
      var bracket, star := Find(name, '['), Find(name, '*');
      if bracket.Some? then
        var element := TrimEnd(name[..bracket.value]);
        (TypeInfo(name, false, true, element, []), GetTypeInfo(s, element).1)
      else if star.Some? then
        if name in s.types then (s.types[name], s)
        else
          var info := PointerInfo(name, TrimEnd(name[..star.value]));
          (info, Write(s, name, info))
      else if name in s.types then (s.types[name], s)
      else
        var s := if s.open then CacheTypeByName(s, name) else s;
        (if name in s.types then s.types[name] else EMPTY_INFO, s)
  }

  function Cleanup(s: Service): Service {
    s.(types := map[], index := {}, open := false, changes := s.changes + 1)
  }

  // ---- Member lookup ---------------------------------------------------------------

  type Answer = Option<(int, string)>

  function FindMember(members: seq<Member>, name: string): Option<Member> {
    if members == [] then None
    else if members[0].name == name then Some(members[0])
    else FindMember(members[1..], name)
  }

  /** The offset and type of a member; a negative offset counts as not found. */
  function MemberOf(info: TypeInfo, member: string): Answer {
    var m := FindMember(info.members, member);
    if m.Some? && m.value.offset >= 0 then Some((m.value.offset, m.value.typeName)) else None
  }

  /** The lookup without a cache. */
  function Plain(s: Service, base: string, member: string): (Answer, Service) {
    if base == "" then (None, s)
    else
      var (info, s) := GetTypeInfo(s, base);
      (MemberOf(info, member), s)
  }

  datatype Cache = Cache(computed: bool, base: string, offset: int, typeName: string, generation: nat)

  /** The lookup of a member access node. */
  function Cached(s: Service, c: Cache, base: string, member: string): (Answer, Service, Cache) {
    if base == "" then (None, s, c)
    else if c.computed && c.base == base && c.generation == Generation(s) then (Some((c.offset, c.typeName)), s, c)
    else
      var (answer, s) := Plain(s, base, member);
      (answer, s, if answer.Some? then Cache(true, base, answer.value.0, answer.value.1, Generation(s)) else c)
  }

  // ---- What a lookup answers -------------------------------------------------------

  /** The answer is the offset and type of the first member of that name; there is none exactly
      when no member has the name or the first that has it lies at a negative offset. */
  lemma {:induction false} MemberIsFirst(members: seq<Member>, name: string, j: nat)
    requires j <= |members| && forall k :: 0 <= k < j ==> members[k].name != name
    requires j < |members| ==> members[j].name == name
    ensures FindMember(members, name) == if j < |members| then Some(members[j]) else None
    ensures forall info: TypeInfo :: info.members == members ==>
              MemberOf(info, name) ==
              if j < |members| && members[j].offset >= 0 then Some((members[j].offset, members[j].typeName)) else None
    decreases j
  {
    if j > 0 {
      MemberIsFirst(members[1..], name, j - 1);
    }
  }

  /** After a run of entries a key holds the last one written for it, or what it held. */
  lemma {:induction false} LastWriteStays(s: Service, writes: seq<Entry>, key: string, j: nat)
    requires j <= |writes| && forall k :: |writes| - j <= k < |writes| ==> writes[k].key != key
    requires j < |writes| ==> writes[|writes| - 1 - j].key == key
    ensures var types := WriteAll(s, writes).types;
            if j < |writes| then key in types && types[key] == writes[|writes| - 1 - j].info
            else (key in types <==> key in s.types) && (key in types ==> types[key] == s.types[key])
    decreases |writes|
  {
    if writes != [] {
      var next := Write(s, writes[0].key, writes[0].info);
      if j < |writes| {
        LastWriteStays(next, writes[1..], key, j);
      } else {
        LastWriteStays(next, writes[1..], key, j - 1);
      }
    }
  }

  /** The part of a name before the first such character, without the spaces at its end. */
  predicate UpTo(part: string, name: string, c: char) {
    && part <= name && c !in part && (part != "" ==> !IsSpace(part[|part| - 1]))
    && exists i :: |part| <= i < |name| && name[i] == c && c !in name[..i]
                   && forall k :: |part| <= k < i ==> IsSpace(name[k])
  }

  lemma TrimmedUpTo(name: string, c: char)
    requires c in name
    ensures Find(name, c).Some? && UpTo(TrimEnd(name[..Find(name, c).value]), name, c)
  {
    var i := Find(name, c).value;
    var part := TrimEnd(name[..i]);
    assert forall k :: |part| <= k < i ==> name[k] == name[..i][k];
  }

  /** An array is made up from the name up to its first bracket. */
  lemma ArrayByForm(s: Service, name: string)
    requires '[' in name
    ensures var info := GetTypeInfo(s, name).0;
            && info.isArray && !info.isPointer && info.name == name && info.members == []
            && UpTo(info.elementType, name, '[')
  {
    TrimmedUpTo(name, '[');
  }

  /** A pointer that is not known is made up from the name up to its first star, and kept. */
  lemma PointerByForm(s: Service, name: string)
    requires '[' !in name && '*' in name && name !in s.types
    ensures var (info, s') := GetTypeInfo(s, name);
            && info.isPointer && !info.isArray && info.name == name && info.members == []
            && UpTo(info.elementType, name, '*')
            && s' == s.(types := s.types[name := info], changes := s.changes + 1)
  {
    TrimmedUpTo(name, '*');
  }

  /** Any other name comes from the table, to which it is read first where it can be. */
  lemma NameByForm(s: Service, name: string)
    requires '[' !in name && ('*' in name ==> name in s.types)
    ensures var (info, s') := GetTypeInfo(s, name);
            if name == "" then info == EMPTY_INFO && s' == s
            else if name in s.types then info == s.types[name] && s' == s
            else if s.open && name in s.index && s.parser(name, s.types).Parsed?
            then info == s.parser(name, s.types).info && name in s'.types && s'.types[name] == info
            else info == EMPTY_INFO && s' == s
  {
    assert Find(name, '[').None?;
  }

  // ---- Changes are counted ---------------------------------------------------------

  /** The counter never falls, and while it stands still the types stay as they are. */
  predicate Evolves(s: Service, s': Service) {
    s'.changes >= s.changes && (s'.changes == s.changes ==> s'.types == s.types)
  }

  lemma {:induction false} WriteAllEvolves(s: Service, writes: seq<Entry>)
    ensures Evolves(s, WriteAll(s, writes)) && WriteAll(s, writes).changes == s.changes + |writes|
    decreases |writes|
  {
    if writes != [] {
      WriteAllEvolves(Write(s, writes[0].key, writes[0].info), writes[1..]);
    }
  }

  lemma CacheTypeByNameEvolves(s: Service, name: string)
    ensures Evolves(s, CacheTypeByName(s, name))
    ensures name in CacheTypeByName(s, name).types || CacheTypeByName(s, name) == s
  {
    if name !in s.types && name in s.index && s.parser(name, s.types).Parsed? {
      WriteAllEvolves(s, s.parser(name, s.types).writes);
    }
  }

  lemma CacheTypeInfoEvolves(s: Service, name: string, parsed: Parse)
    ensures Evolves(s, CacheTypeInfo(s, name, parsed))
  {
    if parsed.Parsed? {
      WriteAllEvolves(s, parsed.writes);
    }
  }

  /** A name whose lookup is answered from the table alone. */
  predicate Known(s: Service, name: string) {
    name != "" && Find(name, '[').None? && name in s.types
  }

  /** Looking a name up counts its changes; a type with members is then in the table, as it
      was answered. */
  lemma {:induction false} GetTypeInfoEvolves(s: Service, name: string)
    ensures var (info, s') := GetTypeInfo(s, name);
            Evolves(s, s') && (info.members != [] ==> Known(s', name) && s'.types[name] == info)
    decreases |name|
  {
    if name != "" {
      var bracket := Find(name, '[');
      if bracket.Some? {
        GetTypeInfoEvolves(s, TrimEnd(name[..bracket.value]));
      } else if Find(name, '*').None? && name !in s.types && s.open {
        CacheTypeByNameEvolves(s, name);
      }
    }
  }

  lemma KnownIsAnswered(s: Service, name: string)
    requires Known(s, name)
    ensures GetTypeInfo(s, name) == (s.types[name], s)
  {
  }

  lemma GenerationTells(a: nat, b: nat)
    requires a <= b < a + WORD && a % WORD == b % WORD
    ensures a == b
  {
  }

  // ---- The cache is transparent ----------------------------------------------------

  /** `at` is the number of changes when the entry was made.  While there were none since,
      the table holds the type and the entry is what it says. */
  predicate Holds(s: Service, c: Cache, member: string, at: nat) {
    c.computed ==>
      && at <= s.changes && c.generation == at % WORD
      && (at == s.changes ==> Known(s, c.base) && MemberOf(s.types[c.base], member) == Some((c.offset, c.typeName)))
  }

  lemma HoldsOn(s: Service, s': Service, c: Cache, member: string, at: nat)
    requires Holds(s, c, member, at) && Evolves(s, s')
    ensures Holds(s', c, member, at)
  {
  }

  predicate Hit(s: Service, c: Cache, base: string) {
    base != "" && c.computed && c.base == base && c.generation == Generation(s)
  }

  /** The entry is trusted although there were changes since it was made: their number is a
      multiple of 2^64. */
  predicate StaleHit(s: Service, c: Cache, base: string, at: nat) {
    Hit(s, c, base) && at != s.changes
  }

  /** The number of changes when the entry after an evaluation was made. */
  function MadeAt(s: Service, c: Cache, base: string, member: string, at: nat): nat {
    var (answer, s') := Plain(s, base, member);
    if !Hit(s, c, base) && answer.Some? then s'.changes else at
  }

  /** The table holds the type, and its member is as the entry says. */
  predicate StillRight(s: Service, c: Cache, member: string) {
    Known(s, c.base) && MemberOf(s.types[c.base], member) == Some((c.offset, c.typeName))
  }

  /** One evaluation answers and changes the service as if there were no cache, if and only if
      an entry that it trusts is still right. */
  lemma EvaluationIsPlainIff(s: Service, c: Cache, base: string, member: string)
    ensures var (answer, s', c') := Cached(s, c, base, member);
            (answer, s') == Plain(s, base, member) <==> (Hit(s, c, base) ==> StillRight(s, c, member))
  {
    if Hit(s, c, base) {
      GetTypeInfoEvolves(s, base);
      if StillRight(s, c, member) {
        KnownIsAnswered(s, base);
      }
    }
  }

  /** An entry that no change has overtaken is right, and so is the one kept or made. */
  lemma EvaluationHolds(s: Service, c: Cache, base: string, member: string, at: nat)
    requires Holds(s, c, member, at) && !StaleHit(s, c, base, at)
    ensures var (_, s', c') := Cached(s, c, base, member);
            && (Hit(s, c, base) ==> StillRight(s, c, member))
            && Evolves(s, s') && Holds(s', c', member, MadeAt(s, c, base, member, at))
  {
    if base != "" && !Hit(s, c, base) {
      GetTypeInfoEvolves(s, base);
      HoldsOn(s, Plain(s, base, member).1, c, member, at);
    }
  }

  /** What may happen between evaluations: lookups by others, types materialized or noted,
      other symbol changes, the debug information opened, and everything dropped. */
  datatype Op = Evaluate(base: string)
              | Query(name: string)
              | Materialize(name: string)
              | Note(name: string, parsed: Parse)
              | Change
              | Open(index: set<string>, parser: Parser)
              | Close

  function Apply(s: Service, op: Op): Service
    requires !op.Evaluate?
  {
    match op
    case Query(name) => GetTypeInfo(s, name).1
    case Materialize(name) => CacheTypeByName(s, name)
    case Note(name, parsed) => CacheTypeInfo(s, name, parsed)
    case Change => s.(changes := s.changes + 1)
    case Open(index, parser) => s.(index := index, parser := parser, open := true)
    case Close => Cleanup(s)
  }

  lemma ApplyEvolves(s: Service, op: Op)
    requires !op.Evaluate?
    ensures Evolves(s, Apply(s, op))
  {
    match op {
      case Query(name) => GetTypeInfoEvolves(s, name);
      case Materialize(name) => CacheTypeByNameEvolves(s, name);
      case Note(name, parsed) => CacheTypeInfoEvolves(s, name, parsed);
      case _ =>
    }
  }

  /** What an evaluation answers and leaves behind. */
  datatype Seen = Seen(answer: Answer, service: Service)

  /** What the evaluations of a whole run show, and the service at its end. */
  function RunPlain(s: Service, ops: seq<Op>, member: string): (seq<Seen>, Service)
    decreases |ops|
  {
    if ops == [] then ([], s)
    else if ops[0].Evaluate? then
      var (answer, s) := Plain(s, ops[0].base, member);
      var (rest, end) := RunPlain(s, ops[1..], member);
      ([Seen(answer, s)] + rest, end)
    else RunPlain(Apply(s, ops[0]), ops[1..], member)
  }

  function RunCached(s: Service, c: Cache, ops: seq<Op>, member: string): (seq<Seen>, Service)
    decreases |ops|
  {
    if ops == [] then ([], s)
    else if ops[0].Evaluate? then
      var (answer, s, c) := Cached(s, c, ops[0].base, member);
      var (rest, end) := RunCached(s, c, ops[1..], member);
      ([Seen(answer, s)] + rest, end)
    else RunCached(Apply(s, ops[0]), c, ops[1..], member)
  }

  lemma {:induction false} RunEvolves(s: Service, ops: seq<Op>, member: string)
    ensures Evolves(s, RunPlain(s, ops, member).1)
    decreases |ops|
  {
    if ops != [] {
      if ops[0].Evaluate? {
        GetTypeInfoEvolves(s, ops[0].base);
        RunEvolves(Plain(s, ops[0].base, member).1, ops[1..], member);
      } else {
        ApplyEvolves(s, ops[0]);
        RunEvolves(Apply(s, ops[0]), ops[1..], member);
      }
    }
  }

  /** Every entry that an evaluation of the run trusts is still right then. */
  predicate NoWrongHit(s: Service, c: Cache, ops: seq<Op>, member: string)
    decreases |ops|
  {
    if ops == [] then true
    else if ops[0].Evaluate? then
      && (Hit(s, c, ops[0].base) ==> StillRight(s, c, member))
      && var (_, s', c') := Cached(s, c, ops[0].base, member);
         NoWrongHit(s', c', ops[1..], member)
    else NoWrongHit(Apply(s, ops[0]), c, ops[1..], member)
  }

  /** Over every interleaving of evaluations with changes of the symbols, however long and
      whatever entry it starts with, a node answers, and after each evaluation leaves the
      service, exactly as one without a cache, if and only if it trusts no entry that is
      no longer right. */
  lemma {:induction false} CacheIsTransparentIff(s: Service, c: Cache, ops: seq<Op>, member: string)
    ensures RunCached(s, c, ops, member) == RunPlain(s, ops, member) <==> NoWrongHit(s, c, ops, member)
    decreases |ops|
  {
    if ops != [] {
      if ops[0].Evaluate? {
        var base := ops[0].base;
        EvaluationIsPlainIff(s, c, base, member);
        var (answer, s', c') := Cached(s, c, base, member);
        var (plain, s'') := Plain(s, base, member);
        assert RunCached(s, c, ops, member).0[0] == Seen(answer, s');
        assert RunPlain(s, ops, member).0[0] == Seen(plain, s'');
        if (answer, s') == (plain, s'') {
          CacheIsTransparentIff(s', c', ops[1..], member);
          SameTail(Seen(answer, s'), RunCached(s', c', ops[1..], member).0, RunPlain(s', ops[1..], member).0);
        }
      } else {
        CacheIsTransparentIff(Apply(s, ops[0]), c, ops[1..], member);
      }
    }
  }

  lemma SameTail<T>(x: T, a: seq<T>, b: seq<T>)
    ensures [x] + a == [x] + b <==> a == b
  {
    assert ([x] + a)[1..] == a && ([x] + b)[1..] == b;
  }

  /** No evaluation of the run trusts an entry that changes have overtaken. */
  predicate NoStaleHit(s: Service, c: Cache, ops: seq<Op>, member: string, at: nat)
    decreases |ops|
  {
    if ops == [] then true
    else if ops[0].Evaluate? then
      && !StaleHit(s, c, ops[0].base, at)
      && var (_, s', c') := Cached(s, c, ops[0].base, member);
         NoStaleHit(s', c', ops[1..], member, MadeAt(s, c, ops[0].base, member, at))
    else NoStaleHit(Apply(s, ops[0]), c, ops[1..], member, at)
  }

  lemma {:induction false} FreshHitsAreRight(s: Service, c: Cache, ops: seq<Op>, member: string, at: nat)
    requires Holds(s, c, member, at) && NoStaleHit(s, c, ops, member, at)
    ensures NoWrongHit(s, c, ops, member)
    decreases |ops|
  {
    if ops != [] {
      if ops[0].Evaluate? {
        var base := ops[0].base;
        EvaluationHolds(s, c, base, member, at);
        var (_, s', c') := Cached(s, c, base, member);
        FreshHitsAreRight(s', c', ops[1..], member, MadeAt(s, c, base, member, at));
      } else {
        ApplyEvolves(s, ops[0]);
        HoldsOn(s, Apply(s, ops[0]), c, member, at);
        FreshHitsAreRight(Apply(s, ops[0]), c, ops[1..], member, at);
      }
    }
  }

  /** That is so, for a node that starts without an entry, unless one is trusted again after
      a multiple of 2^64 changes. */
  lemma CacheIsTransparent(s: Service, c: Cache, ops: seq<Op>, member: string)
    requires !c.computed && NoStaleHit(s, c, ops, member, 0)
    ensures RunCached(s, c, ops, member) == RunPlain(s, ops, member)
  {
    FreshHitsAreRight(s, c, ops, member, 0);
    CacheIsTransparentIff(s, c, ops, member);
  }

  lemma {:induction false} InRangeNoStaleHit(s: Service, c: Cache, ops: seq<Op>, member: string, at: nat, start: nat)
    requires Holds(s, c, member, at) && start <= s.changes && (c.computed ==> start <= at)
    requires RunPlain(s, ops, member).1.changes < start + WORD
    ensures NoStaleHit(s, c, ops, member, at)
    decreases |ops|
  {
    if ops != [] {
      RunEvolves(s, ops, member);
      if ops[0].Evaluate? {
        var base := ops[0].base;
        if Hit(s, c, base) {
          GenerationTells(at, s.changes);
        }
        EvaluationHolds(s, c, base, member, at);
        EvaluationIsPlainIff(s, c, base, member);
        var (_, s', c') := Cached(s, c, base, member);
        InRangeNoStaleHit(s', c', ops[1..], member, MadeAt(s, c, base, member, at), start);
      } else {
        ApplyEvolves(s, ops[0]);
        HoldsOn(s, Apply(s, ops[0]), c, member, at);
        InRangeNoStaleHit(Apply(s, ops[0]), c, ops[1..], member, at, start);
      }
    }
  }

  /** So the cache is transparent over every run in which the counter does not go all the way
      round. */
  lemma CounterRangeSuffices(s: Service, c: Cache, ops: seq<Op>, member: string)
    requires !c.computed && RunPlain(s, ops, member).1.changes < s.changes + WORD
    ensures NoStaleHit(s, c, ops, member, 0) && RunCached(s, c, ops, member) == RunPlain(s, ops, member)
  {
    InRangeNoStaleHit(s, c, ops, member, 0, s.changes);
    CacheIsTransparent(s, c, ops, member);
  }

  function Changes(n: nat): seq<Op> {
    seq(n, _ => Change)
  }

  lemma {:induction false} RunChanges(s: Service, c: Cache, n: nat, rest: seq<Op>, member: string)
    ensures RunPlain(s, Changes(n) + rest, member) == RunPlain(s.(changes := s.changes + n), rest, member)
    ensures RunCached(s, c, Changes(n) + rest, member) == RunCached(s.(changes := s.changes + n), c, rest, member)
    decreases n
  {
    if n == 0 {
      assert Changes(n) + rest == rest;
    } else {
      assert (Changes(n) + rest)[1..] == Changes(n - 1) + rest && (Changes(n) + rest)[0] == Change;
      RunChanges(s.(changes := s.changes + 1), c, n - 1, rest, member);
    }
  }

  function StructT(offset: int): TypeInfo {
    TypeInfo("t", false, false, "", [Member("x", offset, "int")])
  }

  /** The member is evaluated, exactly 2^64 changes follow, the last of them noting another
      layout of the type, and the member is evaluated again. */
  function WrappingRun(): seq<Op> {
    [Evaluate("t")] + (Changes(WORD - 1) + [Note("u", Parsed([], StructT(8))), Evaluate("t")])
  }

  function Answers(shown: seq<Seen>): seq<Answer> {
    seq(|shown|, i requires 0 <= i < |shown| => shown[i].answer)
  }

  lemma LastEvaluation(s: Service, c: Cache)
    requires s.types == map["t" := StructT(0)] && s.changes == WORD - 1 && c == Cache(true, "t", 0, "int", 0)
    ensures var ops := [Note("u", Parsed([], StructT(8))), Evaluate("t")];
            && Answers(RunCached(s, c, ops, "x").0) == [Some((0, "int"))]
            && Answers(RunPlain(s, ops, "x").0) == [Some((8, "int"))]
  {
    var ops := [Note("u", Parsed([], StructT(8))), Evaluate("t")];
    var s' := Write(s, "t", StructT(8));
    assert WriteAll(s, []) == s && Apply(s, ops[0]) == s';
    assert ops[1..] == [Evaluate("t")] && [Evaluate("t")][1..] == [];
    assert Find("t", '[').None? && Find("t", '*').None?;
    KnownIsAnswered(s', "t");
    assert Plain(s', "t", "x").0 == Some((8, "int"));
    assert Cached(s', c, "t", "x").0 == Some((0, "int"));
  }

  /** Over this run the cache is not transparent: the entry made before is trusted after the
      counter has gone round, and the old offset is answered for the new layout. */
  lemma WrappedCounterMisleads(parser: Parser)
    ensures var s := Service(map["t" := StructT(0)], {}, true, parser, 0);
            var c := Cache(false, "", 0, "", 0);
            && Answers(RunPlain(s, WrappingRun(), "x").0) == [Some((0, "int")), Some((8, "int"))]
            && Answers(RunCached(s, c, WrappingRun(), "x").0) == [Some((0, "int")), Some((0, "int"))]
  {
    var s, c := Service(map["t" := StructT(0)], {}, true, parser, 0), Cache(false, "", 0, "", 0);
    var last := [Note("u", Parsed([], StructT(8))), Evaluate("t")];
    assert Find("t", '[').None?;
    KnownIsAnswered(s, "t");
    var c' := Cache(true, "t", 0, "int", 0);
    assert Cached(s, c, "t", "x") == (Some((0, "int")), s, c');
    assert WrappingRun()[1..] == Changes(WORD - 1) + last;
    RunChanges(s, c', WORD - 1, last, "x");
    LastEvaluation(s.(changes := WORD - 1), c');
  }

  // ---- In place --------------------------------------------------------------------

  class SymbolService {
    var types: Types
    var index: set<string>
    var open: bool
    var parser: Parser
    var generation: nat
    ghost var changes: nat

    ghost predicate Valid()
      reads this
    {
      generation == changes % WORD
    }

    ghost function Now(): Service
      reads this
    {
      Service(types, index, open, parser, changes)
    }

    constructor (parser: Parser)
      ensures Valid() && Now() == Service(map[], {}, false, parser, 0)
    {
      types, index, open, this.parser, generation, changes := map[], {}, false, parser, 0, 0;
    }

    method MarkSymbolChange()
      requires Valid()
      modifies this`generation, this`changes
      ensures Valid() && Now() == old(Now()).(changes := old(changes) + 1)
    {
      generation := (generation + 1) % WORD;
      changes := changes + 1;
    }

    method Store(key: string, info: TypeInfo)
      requires Valid()
      modifies this
      ensures Valid() && Now() == Write(old(Now()), key, info)
    {
      MarkSymbolChange();
      types := types[key := info];
    }

    method StoreAll(writes: seq<Entry>)
      requires Valid()
      modifies this
      ensures Valid() && Now() == WriteAll(old(Now()), writes)
    {
      var i := 0;
      while i < |writes|
        invariant 0 <= i <= |writes| && Valid()
        invariant WriteAll(Now(), writes[i..]) == WriteAll(old(Now()), writes)
      {
        Store(writes[i].key, writes[i].info);
        assert writes[i..][1..] == writes[i + 1..];
        i := i + 1;
      }
    }

    method CacheByName(name: string)
      requires Valid()
      modifies this
      ensures Valid() && Now() == CacheTypeByName(old(Now()), name)
    {
      if name in types || name !in index {
        return;
      }
      var parsed := parser(name, types);
      if parsed.Parsed? {
        StoreAll(parsed.writes);
        Store(name, parsed.info);
      }
    }

    method TypeInfoOf(name: string) returns (info: TypeInfo)
      requires Valid()
      modifies this
      ensures Valid() && (info, Now()) == GetTypeInfo(old(Now()), name)
      decreases |name|
    {
      if name == "" {
        return EMPTY_INFO;
      }
      var bracket, star := Find(name, '['), Find(name, '*');
      if bracket.Some? {
        var element := TrimEnd(name[..bracket.value]);
        var _ := TypeInfoOf(element);
        return TypeInfo(name, false, true, element, []);
      }
      if star.Some? {
        if name !in types {
          Store(name, PointerInfo(name, TrimEnd(name[..star.value])));
        }
        return types[name];
      }
      if name !in types && open {
        CacheByName(name);
      }
      info := if name in types then types[name] else EMPTY_INFO;
    }

    method Clear()
      requires Valid()
      modifies this
      ensures Valid() && Now() == Cleanup(old(Now()))
    {
      MarkSymbolChange();
      types, index, open := map[], {}, false;
    }
  }

  class MemberAccessNode {
    const member: string
    var computed: bool
    var base: string
    var offset: int
    var typeName: string
    var generation: nat

    ghost function Entry(): Cache
      reads this
    {
      Cache(computed, base, offset, typeName, generation)
    }

    constructor (member: string)
      ensures this.member == member && !Entry().computed
    {
      this.member, computed, base, offset, typeName, generation := member, false, "", 0, "", 0;
    }

    /** The counter is read after the lookup, which may itself have changed it. */
    method EvalOffset(s: SymbolService, baseType: string) returns (answer: Answer)
      requires s.Valid()
      modifies this, s
      ensures s.Valid() && (answer, s.Now(), Entry()) == Cached(old(s.Now()), old(Entry()), baseType, member)
    {
      if baseType == "" {
        return None;
      }
      if computed && base == baseType && generation == s.generation {
        return Some((offset, typeName));
      }
      var info := s.TypeInfoOf(baseType);
      var i := 0;
      while i < |info.members| && info.members[i].name != member
        invariant 0 <= i <= |info.members| && FindMember(info.members[i..], member) == FindMember(info.members, member)
      {
        assert info.members[i..][1..] == info.members[i + 1..];
        i := i + 1;
      }
      if i == |info.members| || info.members[i].offset < 0 {
        return None;
      }
      computed, base, offset, typeName, generation :=
        true, baseType, info.members[i].offset, info.members[i].typeName, s.generation;
      answer := Some((offset, typeName));
    }
  }
}
