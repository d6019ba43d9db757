/**
 * The native method registry of CallMember (value_ops.cpp): a fixed table
 * from signature key to native handler. Several keys share one handler.
 */
module Registry {
  import opened ValueOps

  /** The native handlers (ReflectedMethods::*) that the table refers to. */
  datatype NativeFn =
    | Compiler_message
    | Compiler_require
    | ClassInfo_variables
    | ClassInfo_functions
    | ClassInfo_addMethod
    | ClassInfo_add_template_type_param
    | RangeT_empty
    | RangeT_begin
    | RangeT_end
    | IteratorT_OperNotEqual_Same
    | IteratorT_OperStar
    | IteratorT_OperPrefixInc
    | MethodInfo_is_public
    | ClassMemberBase_has_access
    | ClassMemberBase_make_public
    | ClassMemberBase_name
    | MethodInfo_is_implicit
    | MethodInfo_is_copy_ctor
    | MethodInfo_is_move_ctor
    | MethodInfo_make_pure_virtual

  /**
   * A registered handler: which native function, the native type its
   * receiver parameter has, and the native types of its further parameters.
   */
  datatype Handler = Handler(fn: NativeFn, receiver: NativeType, params: seq<NativeType>)

  /** A handler taking a reflected object as receiver. */
  function OnObject(fn: NativeFn, params: seq<NativeType>): (h: Handler)
    ensures h.fn == fn && h.receiver == ObjectType && h.params == params
  {
    Handler(fn, ObjectType, params)
  }

  /** One row of the table: a signature key and the handler registered for it. */
  datatype Entry = Entry(key: string, handler: Handler)

  /** The signature keys of the table's rows, in the order they are written. */
  const Keys: seq<string> := [
    /*  0 */ "meta::CompilerImpl::message/void message(const char *msg)",
    /*  1 */ "meta::CompilerImpl::require/void require(bool, const char *message)",
    /*  2 */ "meta::ClassInfo::variables/Range<meta::MemberInfo> &variables() const",
    /*  3 */ "meta::ClassInfo::functions/Range<meta::MethodInfo> &functions() const",
    /*  4 */ "meta::ClassInfo::add/template<> void add<meta::MethodInfo>(meta::MethodInfo entity, meta::AccessType access = AccessType::Unspecified)",
    /*  5 */ "meta::ClassInfo::add_template_type_param/meta::TypeInfo add_template_type_param(const char *name)",
    /*  6 */ "meta::Range<meta::MemberInfo>::empty/bool empty() const",
    /*  7 */ "meta::Range<meta::MethodInfo>::begin/meta::Range<meta::MethodInfo>::iterator begin()",
    /*  8 */ "meta::Range<meta::MethodInfo>::end/meta::Range<meta::MethodInfo>::iterator end()",
    /*  9 */ "meta::Range<meta::MethodInfo>::iterator::operator!=/bool operator!=(const meta::Range<meta::MethodInfo>::iterator &) const",
    /* 10 */ "meta::Range<meta::MethodInfo>::iterator::operator*/meta::MethodInfo &operator*()",
    /* 11 */ "meta::Range<meta::MethodInfo>::iterator::operator++/meta::Range<meta::MethodInfo>::iterator &operator++()",
    /* 12 */ "meta::Range<meta::MemberInfo>::begin/meta::Range<meta::MemberInfo>::iterator begin()",
    /* 13 */ "meta::Range<meta::MemberInfo>::end/meta::Range<meta::MemberInfo>::iterator end()",
    /* 14 */ "meta::Range<meta::MemberInfo>::iterator::operator!=/bool operator!=(const meta::Range<meta::MemberInfo>::iterator &) const",
    /* 15 */ "meta::Range<meta::MemberInfo>::iterator::operator*/meta::MemberInfo &operator*()",
    /* 16 */ "meta::Range<meta::MemberInfo>::iterator::operator++/meta::Range<meta::MemberInfo>::iterator &operator++()",
    /* 17 */ "meta::Range<meta::TypeInfo>::begin/meta::Range<meta::TypeInfo>::iterator begin()",
    /* 18 */ "meta::Range<meta::TypeInfo>::end/meta::Range<meta::TypeInfo>::iterator end()",
    /* 19 */ "meta::Range<meta::TypeInfo>::iterator::operator!=/bool operator!=(const meta::Range<meta::TypeInfo>::iterator &) const",
    /* 20 */ "meta::Range<meta::TypeInfo>::iterator::operator*/meta::TypeInfo &operator*()",
    /* 21 */ "meta::Range<meta::TypeInfo>::iterator::operator++/meta::Range<meta::TypeInfo>::iterator &operator++()",
    /* 22 */ "meta::ClassMemberBase::is_public/bool is_public() const",
    /* 23 */ "meta::ClassMemberBase::has_access/bool has_access() const",
    /* 24 */ "meta::ClassMemberBase::make_public/void make_public()",
    /* 25 */ "meta::ClassMemberBase::name/const std::string &name() const",
    /* 26 */ "meta::MethodInfo::is_implicit/bool is_implicit() const",
    /* 27 */ "meta::MethodInfo::is_copy_ctor/bool is_copy_ctor() const",
    /* 28 */ "meta::MethodInfo::is_move_ctor/bool is_move_ctor() const",
    /* 29 */ "meta::MethodInfo::make_pure_virtual/void make_pure_virtual()"
  ]

  /** The handler registered by each row, in the same order as Keys. */
  const Handlers: seq<Handler> := [
    /*  0 */ OnObject(Compiler_message, [StringType]),
    /*  1 */ OnObject(Compiler_require, [BoolType, StringType]),
    /*  2 */ OnObject(ClassInfo_variables, []),
    /*  3 */ OnObject(ClassInfo_functions, []),
    /*  4 */ OnObject(ClassInfo_addMethod, [ObjectType, EnumType]),
    /*  5 */ OnObject(ClassInfo_add_template_type_param, [StringType]),
    /*  6 */ OnObject(RangeT_empty, []),
    /*  7 */ OnObject(RangeT_begin, []),
    /*  8 */ OnObject(RangeT_end, []),
    /*  9 */ OnObject(IteratorT_OperNotEqual_Same, [ObjectType]),
    /* 10 */ OnObject(IteratorT_OperStar, []),
    /* 11 */ OnObject(IteratorT_OperPrefixInc, []),
    /* 12 */ OnObject(RangeT_begin, []),
    /* 13 */ OnObject(RangeT_end, []),
    /* 14 */ OnObject(IteratorT_OperNotEqual_Same, [ObjectType]),
    /* 15 */ OnObject(IteratorT_OperStar, []),
    /* 16 */ OnObject(IteratorT_OperPrefixInc, []),
    /* 17 */ OnObject(RangeT_begin, []),
    /* 18 */ OnObject(RangeT_end, []),
    /* 19 */ OnObject(IteratorT_OperNotEqual_Same, [ObjectType]),
    /* 20 */ OnObject(IteratorT_OperStar, []),
    /* 21 */ OnObject(IteratorT_OperPrefixInc, []),
    /* 22 */ OnObject(MethodInfo_is_public, []),
    /* 23 */ OnObject(ClassMemberBase_has_access, []),
    /* 24 */ OnObject(ClassMemberBase_make_public, []),
    /* 25 */ OnObject(ClassMemberBase_name, []),
    /* 26 */ OnObject(MethodInfo_is_implicit, []),
    /* 27 */ OnObject(MethodInfo_is_copy_ctor, []),
    /* 28 */ OnObject(MethodInfo_is_move_ctor, []),
    /* 29 */ OnObject(MethodInfo_make_pure_virtual, [])
  ]

  /** The rows of the table: row i registers Handlers[i] under Keys[i]. */
  const Entries: seq<Entry> := seq(|Keys|, i requires 0 <= i < |Keys| => Entry(Keys[i], Handlers[i]))

  /** No key is written twice in `entries`. */
  ghost predicate DistinctKeys(entries: seq<Entry>) {
    forall i, j :: 0 <= i < j < |entries| ==> entries[i].key != entries[j].key
  }

  /** The keys written in `entries`. */
  ghost function KeysOf(entries: seq<Entry>): set<string>
    decreases |entries|
  {
    if entries == [] then {} else {entries[0].key} + KeysOf(entries[1..])
  }

  /**
   * Builds a map from `entries` the way a hash map is filled from an
   * initializer list: a row whose key is already present is skipped.
   */
  function Populate(m: map<string, Handler>, entries: seq<Entry>): (r: map<string, Handler>)
    ensures r.Keys == m.Keys + KeysOf(entries)
    ensures forall k :: k in m ==> r[k] == m[k]
    decreases |entries|
  {
    if entries == [] then m
    else
      var e := entries[0];
      Populate(if e.key in m then m else m[e.key := e.handler], entries[1..])
  }

  /** The registry: the map built once, on first use, from the rows. */
  const Table: map<string, Handler> := Populate(map[], Entries)

  /** Rows whose keys are all present already leave the map as it is. */
  lemma {:induction false} PopulatePresent(m: map<string, Handler>, entries: seq<Entry>)
    requires KeysOf(entries) <= m.Keys
    ensures Populate(m, entries) == m
    decreases |entries|
  {
    if entries != [] {
      PopulatePresent(m, entries[1..]);
    }
  }

  /** Filling the map a second time from the same rows changes nothing. */
  lemma PopulateIdempotent(m: map<string, Handler>, entries: seq<Entry>)
    ensures Populate(Populate(m, entries), entries) == Populate(m, entries)
  {
    PopulatePresent(Populate(m, entries), entries);
  }

  /** The first row carrying a key that is not yet present decides its handler. */
  lemma {:induction false} PopulateFirstWins(m: map<string, Handler>, entries: seq<Entry>, i: nat)
    requires i < |entries|
    requires entries[i].key !in m
    requires forall j :: 0 <= j < i ==> entries[j].key != entries[i].key
    ensures entries[i].key in Populate(m, entries)
    ensures Populate(m, entries)[entries[i].key] == entries[i].handler
    decreases i
  {
    var e := entries[0];
    var m' := if e.key in m then m else m[e.key := e.handler];
    assert Populate(m, entries) == Populate(m', entries[1..]);
    if i == 0 {
      assert m'[e.key] == e.handler;
    } else {
      var rest := entries[1..];
      assert rest[i - 1] == entries[i];
      assert entries[i].key !in m';
      assert forall j :: 0 <= j < i - 1 ==> rest[j].key != rest[i - 1].key by {
        forall j | 0 <= j < i - 1 ensures rest[j].key != rest[i - 1].key {
          assert rest[j] == entries[j + 1];
        }
      }
      PopulateFirstWins(m', rest, i - 1);
    }
  }

  /** Distinct new keys each add one entry. */
  lemma {:induction false} PopulateSize(m: map<string, Handler>, entries: seq<Entry>)
    requires DistinctKeys(entries)
    requires forall j :: 0 <= j < |entries| ==> entries[j].key !in m
    ensures |Populate(m, entries)| == |m| + |entries|
    decreases |entries|
  {
    if entries != [] {
      var e := entries[0];
      assert Populate(m, entries) == Populate(m[e.key := e.handler], entries[1..]);
      PopulateSize(m[e.key := e.handler], entries[1..]);
    }
  }

  /** Rows with distinct keys fill an empty map with one entry each. */
  lemma PopulateFromEmptySize(entries: seq<Entry>)
    requires DistinctKeys(entries)
    ensures |Populate(map[], entries)| == |entries|
  {
    PopulateSize(map[], entries);
  }

  /** The rows of the table have pairwise-distinct keys. */
  lemma EntriesDistinct()
    ensures |Entries| == 30
    ensures DistinctKeys(Entries)
  {
    assert forall i, j :: 0 <= i < j < |Keys| ==> Keys[i] != Keys[j];
  }

  /** Every row is found in the registry under its key, with its own handler. */
  lemma TableLookup(i: nat)
    requires i < |Keys|
    ensures Keys[i] in Table && Table[Keys[i]] == Handlers[i]
  {
    EntriesDistinct();
    PopulateFirstWins(map[], Entries, i);
  }

  /** The registry holds exactly the thirty written keys. */
  lemma TableHasThirtyEntries()
    ensures |Table| == 30
  {
    EntriesDistinct();
    PopulateFromEmptySize(Entries);
  }

  /** Initialising the registry again does not change any lookup. */
  lemma TableInitIdempotent()
    ensures Populate(Table, Entries) == Table
  {
    PopulateIdempotent(map[], Entries);
  }

  /**
   * One handler serves the begin() of the MethodInfo, MemberInfo and
   * TypeInfo ranges: rows 7, 12 and 17 carry three different keys (see
   * EntriesDistinct) and register the same RangeT_begin handler, which each
   * of those keys then looks up (see TableLookup).
   */
  lemma RangeBeginShared()
    ensures Handlers[7] == Handlers[12] == Handlers[17]
    ensures Handlers[7].fn == RangeT_begin && Handlers[7].params == []
  {
  }
}
