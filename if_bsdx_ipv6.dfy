/** IPv6 interface discovery on BSD-like systems,
    src/mca/prteif/bsdx_ipv6/if_bsdx_ipv6.c:82-206.

    The records getifaddrs returns are an input sequence (None when the
    call fails); if_nametoindex is an input function; whether the k-th
    allocation of an interface object fails is an input too. The global
    interface list is an object whose sequence of entries the operation
    extends. */
module IfBsdxIpv6 {
  import opened Util

  datatype Family = Inet | Inet6 | OtherFamily(code: nat)

  const IffUp: bv32 := 0x1
  const IffLoopback: bv32 := 0x8
  const IffPointToPoint: bv32 := 0x10

  /** PMIX_IF_NAMESIZE: room for the name and its terminating NUL. */
  const IfNameSize: nat := 256

  /** The netmask every discovered IPv6 interface gets. */
  const Ipv6Mask: nat := 64

  /** One getifaddrs record: name, address family, flags, address bytes. */
  datatype IfAddrRecord = IfAddrRecord(name: string, family: Family, flags: bv32, addr: seq<bv8>)

  /** An IPv6 record carries a 16-byte sin6_addr. */
  predicate RecordOk(r: IfAddrRecord) {
    r.family == Inet6 ==> |r.addr| == 16
  }

  /** IN6_IS_ADDR_LINKLOCAL: the address lies in fe80::/10 (section 2.5.6
      of RFC 4291). */
  predicate LinkLocal(a: seq<bv8>)
    requires |a| == 16
  {
    a[0] == 0xfe && a[1] & 0xc0 == 0x80
  }

  /** The rule the loop applies to each record. */
  predicate Accepts(retainLoopback: bool, r: IfAddrRecord)
    requires RecordOk(r)
  {
    && r.family == Inet6
    && r.flags & IffUp != 0
    && (retainLoopback || r.flags & IffLoopback == 0)
    && r.flags & IffPointToPoint == 0
    && !LinkLocal(r.addr)
  }

  /** An entry of the interface list (prte_if_t). */
  datatype Interface = Interface(
    name: string, index: nat, family: Family, addr: seq<bv8>, scopeId: nat,
    mask: nat, flags: bv32, kernelIndex: nat)

  /** pmix_string_copy into a PMIX_IF_NAMESIZE buffer keeps at most
      PMIX_IF_NAMESIZE - 1 characters. */
  function TruncatedName(name: string): (r: string)
    ensures |r| < IfNameSize
    ensures r <= name
    ensures |name| < IfNameSize ==> r == name
  {
    if |name| < IfNameSize then name else name[..IfNameSize - 1]
  }

  /** The (uint16_t) cast applied to if_nametoindex's result. */
  function KernelIndex(n: nat): nat {
    n % 0x1_0000
  }

  /** The entry made for an accepted record when the list holds `size`
      entries. */
  function NewEntry(r: IfAddrRecord, size: nat, nameToIndex: string -> nat): Interface {
    Interface(TruncatedName(r.name), size + 1, Inet6, r.addr, 0, Ipv6Mask, r.flags,
              KernelIndex(nameToIndex(r.name)))
  }

  /** The entries made for the records `rs`, in order, when the list
      holds `size` entries before the first of them. */
  function NewEntries(rs: seq<IfAddrRecord>, size: nat, nameToIndex: string -> nat): (r: seq<Interface>)
    ensures |r| == |rs|
  {
    if rs == [] then []
    else NewEntries(rs[..|rs| - 1], size, nameToIndex) + [NewEntry(rs[|rs| - 1], size + |rs| - 1, nameToIndex)]
  }

  /** The list after appending an entry per record of `rs`, each numbered
      by the list's size at the time it is appended. */
  function Appended(list: seq<Interface>, rs: seq<IfAddrRecord>, nameToIndex: string -> nat): seq<Interface> {
    list + NewEntries(rs, |list|, nameToIndex)
  }

  /** The rule as a function value, for filtering. */
  function Rule(retainLoopback: bool): IfAddrRecord -> bool {
    (x: IfAddrRecord) => RecordOk(x) && Accepts(retainLoopback, x)
  }

  /** The records the loop keeps, in input order. */
  function Selected(records: seq<IfAddrRecord>, retainLoopback: bool): (r: seq<IfAddrRecord>)
    requires forall k :: 0 <= k < |records| ==> RecordOk(records[k])
    ensures |r| <= |records|
    ensures forall k :: 0 <= k < |r| ==> RecordOk(r[k]) && Accepts(retainLoopback, r[k])
  {
    Filter(records, Rule(retainLoopback))
  }

  // ---------------------------------------------------------------------
  // Properties
  // ---------------------------------------------------------------------

  /** A record is selected iff it is in the input and passes the rule. */
  lemma SelectedIff(records: seq<IfAddrRecord>, retainLoopback: bool, x: IfAddrRecord)
    requires forall k :: 0 <= k < |records| ==> RecordOk(records[k])
    ensures x in Selected(records, retainLoopback) <==> x in records && RecordOk(x) && Accepts(retainLoopback, x)
  {
    FilterSound(records, Rule(retainLoopback));
    if x in records && RecordOk(x) && Accepts(retainLoopback, x) {
      FilterComplete(records, Rule(retainLoopback), x);
    }
  }

  /** The j-th new entry is made from the j-th record and numbered by
      the size the list has when it is appended. */
  lemma {:induction false} NewEntriesAt(rs: seq<IfAddrRecord>, size: nat, nameToIndex: string -> nat)
    ensures forall j :: 0 <= j < |rs| ==> NewEntries(rs, size, nameToIndex)[j] == NewEntry(rs[j], size + j, nameToIndex)
  {
    if rs != [] {
      var n := |rs| - 1;
      NewEntriesAt(rs[..n], size, nameToIndex);
      forall j | 0 <= j < n
        ensures NewEntries(rs, size, nameToIndex)[j] == NewEntry(rs[j], size + j, nameToIndex)
      {
        assert rs[..n][j] == rs[j];
      }
    }
  }

  /** Appending leaves the old entries alone and numbers the new ones
      consecutively from the old size + 1, one per record, in order. */
  lemma AppendedEntries(list: seq<Interface>, rs: seq<IfAddrRecord>, nameToIndex: string -> nat)
    ensures |Appended(list, rs, nameToIndex)| == |list| + |rs|
    ensures Appended(list, rs, nameToIndex)[..|list|] == list
    ensures forall j :: 0 <= j < |rs| ==>
              Appended(list, rs, nameToIndex)[|list| + j] == NewEntry(rs[j], |list| + j, nameToIndex)
  {
    NewEntriesAt(rs, |list|, nameToIndex);
    assert Appended(list, rs, nameToIndex)[..|list|] == list;
  }

  /** Appending the entry for selected record n to the list built from
      the first n selected records gives the list built from the first
      n + 1. */
  lemma AppendNext(start: seq<Interface>, selected: seq<IfAddrRecord>, n: nat, nameToIndex: string -> nat)
    requires n < |selected|
    ensures var items := start + NewEntries(selected[..n], |start|, nameToIndex);
            items + [NewEntry(selected[n], |items|, nameToIndex)] ==
            start + NewEntries(selected[..n + 1], |start|, nameToIndex)
  {
    assert selected[..n + 1][..n] == selected[..n];
    var prev := NewEntries(selected[..n], |start|, nameToIndex);
    var e := NewEntry(selected[n], |start| + n, nameToIndex);
    assert NewEntries(selected[..n + 1], |start|, nameToIndex) == prev + [e];
    assert (start + prev) + [e] == start + (prev + [e]);
  }

  /** Every new entry describes an up, IPv6, non-point-to-point,
      non-link-local interface (loopback only when retained), with
      scope 0, mask 64, the record's flags and address, and the index
      old size + 1 + its position. */
  lemma NewEntriesDescribeSelected(list: seq<Interface>, records: seq<IfAddrRecord>, retainLoopback: bool,
                                   nameToIndex: string -> nat, j: nat)
    requires forall k :: 0 <= k < |records| ==> RecordOk(records[k])
    requires j < |Selected(records, retainLoopback)|
    ensures var e := Appended(list, Selected(records, retainLoopback), nameToIndex)[|list| + j];
            var r := Selected(records, retainLoopback)[j];
            && r in records
            && e.index == |list| + j + 1
            && e.family == Inet6 == r.family
            && e.addr == r.addr && !LinkLocal(e.addr)
            && e.scopeId == 0 && e.mask == 64
            && e.flags == r.flags && e.flags & IffUp != 0 && e.flags & IffPointToPoint == 0
            && (!retainLoopback ==> e.flags & IffLoopback == 0)
            && e.name == TruncatedName(r.name)
  {
    FilterSound(records, Rule(retainLoopback));
    AppendedEntries(list, Selected(records, retainLoopback), nameToIndex);
  }

  // ---------------------------------------------------------------------
  // The interface list and the component's open function
  // ---------------------------------------------------------------------

  /** prte_if_list. */
  class IfList {
    var items: seq<Interface>

    constructor (items: seq<Interface>)
      ensures this.items == items
    {
      this.items := items;
    }
  }

  /** How many records get an entry: all selected ones, or those before
      the allocation that fails. */
  function EntriesMade(selected: nat, allocFailsAt: Option<nat>): (n: nat)
    ensures n <= selected
  {
    if allocFailsAt.Some? && allocFailsAt.value < selected then allocFailsAt.value else selected
  }

  /** The loop of if_bsdx_ipv6_open over the records getifaddrs returned:
      the list `start` extended by an entry per accepted record, up to the
      allocation that fails. */
  method ScanRecords(records: seq<IfAddrRecord>, retainLoopback: bool, allocFailsAt: Option<nat>,
                     start: seq<Interface>, nameToIndex: string -> nat) returns (rc: Status, items: seq<Interface>)
    requires forall k :: 0 <= k < |records| ==> RecordOk(records[k])
    ensures var selected := Selected(records, retainLoopback);
            var n := EntriesMade(|selected|, allocFailsAt);
            && rc == (if n < |selected| then ErrOutOfResource else Success)
            && items == Appended(start, selected[..n], nameToIndex)
  {
    ghost var selected := Selected(records, retainLoopback);
    items := start;
    var allocs := 0;
    var i := 0;
    while i < |records|
      invariant 0 <= i <= |records|
      invariant allocs <= |selected|
      invariant Filter(records[..i], Rule(retainLoopback)) == selected[..allocs]
      invariant allocFailsAt.Some? ==> allocs <= allocFailsAt.value
      invariant items == start + NewEntries(selected[..allocs], |start|, nameToIndex)
    {
      var r := records[i];
      FilterNext(records, Rule(retainLoopback), i, allocs);
      if !Accepts(retainLoopback, r) {
        i := i + 1;
        continue;
      }
      if allocFailsAt.Some? && allocFailsAt.value == allocs {
        return ErrOutOfResource, items;
      }
      assert Rule(retainLoopback)(r);
      var entry := NewEntry(r, |items|, nameToIndex);
      AppendNext(start, selected, allocs, nameToIndex);
      items := items + [entry];
      allocs := allocs + 1;
      i := i + 1;
    }
    assert records[..|records|] == records;
    assert selected[..allocs] == selected;
    rc := Success;
  }

  /** if_bsdx_ipv6_open. `ipv6Enabled` is the build's PRTE_ENABLE_IPV6,
      `discovered` the result of getifaddrs, `allocFailsAt` the number of
      the interface allocation of this call that fails, if any. */
  method Open(list: IfList, ipv6Enabled: bool, retainLoopback: bool, discovered: Option<seq<IfAddrRecord>>,
              allocFailsAt: Option<nat>, nameToIndex: string -> nat) returns (rc: Status)
    requires discovered.Some? ==> forall k :: 0 <= k < |discovered.value| ==> RecordOk(discovered.value[k])
    modifies list
    ensures !ipv6Enabled ==> rc == Success && list.items == old(list.items)
    ensures ipv6Enabled && discovered.None? ==> rc == Error && list.items == old(list.items)
    ensures ipv6Enabled && discovered.Some? ==>
      var selected := Selected(discovered.value, retainLoopback);
      var n := EntriesMade(|selected|, allocFailsAt);
      && rc == (if n < |selected| then ErrOutOfResource else Success)
      && list.items == Appended(old(list.items), selected[..n], nameToIndex)
  {
    if !ipv6Enabled {
      return Success;
    }
    if discovered.None? {
      return Error;
    }
    var items;
    rc, items := ScanRecords(discovered.value, retainLoopback, allocFailsAt, list.items, nameToIndex);
    list.items := items;
  }
}
