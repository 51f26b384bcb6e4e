/** The pure parts of the Wi-Fi screen (terminal.py): the WLAN interfaces found in a
    listing of `/sys/class/net/`, the interface currently selected, and the networks a
    scan reports. A scan leaves out the connected network, collapses duplicates to the
    strongest signal and orders the rest by signal. The `ls` and `nmcli` runs are
    replaced by their output, and `None` stands for a run that raised. */
module Network {
  import opened Text
  import opened Wrappers

  // ------------------------------------------------------------------ string order

  /** Python's `a <= b` on strings: code point by code point, a proper prefix first. */
  predicate StrLe(a: string, b: string)
    decreases |a|
  {
    a == [] || (b != [] && (a[0] < b[0] || (a[0] == b[0] && StrLe(a[1..], b[1..]))))
  }

  /** Any two strings are ordered one way or the other. */
  lemma {:induction false} StrLeTotal(a: string, b: string)
    ensures StrLe(a, b) || StrLe(b, a)
    decreases |a|
  {
    if a != [] && b != [] && a[0] == b[0] {
      StrLeTotal(a[1..], b[1..]);
    }
  }

  /** Each name is at most the next one. */
  predicate SortedNames(s: seq<string>) {
    forall k :: 0 < k < |s| ==> StrLe(s[k - 1], s[k])
  }

  /** Insert `x` in front of the first name it is at most. */
  function InsertName(s: seq<string>, x: string): (r: seq<string>)
    ensures multiset(r) == multiset(s) + multiset{x}
    ensures r[0] == x || (s != [] && r[0] == s[0])
  {
    if s == [] || StrLe(x, s[0]) then [x] + s
    else
      assert s == [s[0]] + s[1..];
      [s[0]] + InsertName(s[1..], x)
  }

  /** Inserting into a sorted list keeps it sorted. */
  lemma {:induction false} InsertNameSorted(s: seq<string>, x: string)
    requires SortedNames(s)
    ensures SortedNames(InsertName(s, x))
  {
    if s != [] && !StrLe(x, s[0]) {
      StrLeTotal(x, s[0]);
      assert SortedNames(s[1..]);
      InsertNameSorted(s[1..], x);
      var t := InsertName(s[1..], x);
      assert StrLe(s[0], t[0]);
      assert InsertName(s, x) == [s[0]] + t;
    }
  }

  /** Python `sorted(names)`. */
  function SortNames(s: seq<string>): (r: seq<string>)
    ensures multiset(r) == multiset(s)
  {
    if s == [] then []
    else
      assert s == s[..|s| - 1] + [s[|s| - 1]];
      InsertName(SortNames(s[..|s| - 1]), s[|s| - 1])
  }

  /** `sorted` returns its argument's names in order. */
  lemma {:induction false} SortNamesSorted(s: seq<string>)
    ensures SortedNames(SortNames(s))
  {
    if s != [] {
      SortNamesSorted(s[..|s| - 1]);
      InsertNameSorted(SortNames(s[..|s| - 1]), s[|s| - 1]);
    }
  }

  // ------------------------------------------------------------- interface list

  /** The interface name every fallback uses. */
  const DefaultWlan: string := "wlan0"

  /** `[iface for iface in interfaces if iface.startswith('wlan')]`. */
  function WlanNames(names: seq<string>): (r: seq<string>)
    ensures forall x :: multiset(r)[x] == if "wlan" <= x then multiset(names)[x] else 0
  {
    if names == [] then []
    else
      var last := names[|names| - 1];
      assert names == names[..|names| - 1] + [last];
      WlanNames(names[..|names| - 1]) + (if "wlan" <= last then [last] else [])
  }

  /** `detect_wlan_interfaces`, with the output of `ls /sys/class/net/` passed in (`None`
      when the run raised). */
  function DetectWlans(listing: Option<string>): seq<string> {
    match listing
    case None => [DefaultWlan]
    case Some(out) =>
      var wlans := SortNames(WlanNames(SplitOn(Strip(out), '\n')));
      if wlans == [] then [DefaultWlan] else wlans
  }

  /** A non-empty, sorted list of `wlan...` names. */
  predicate WlanList(r: seq<string>) {
    r != [] && SortedNames(r) && forall k :: 0 <= k < |r| ==> "wlan" <= r[k]
  }

  /** There is always at least one interface, every one is named `wlan...`, and they are
      sorted. */
  lemma DetectWlansNamed(listing: Option<string>)
    ensures WlanList(DetectWlans(listing))
  {
    FallbackIsWlanList();
    if listing.Some? {
      var names := SplitOn(Strip(listing.value), '\n');
      var w := SortNames(WlanNames(names));
      SortedWlansNamed(names, w);
    }
  }

  /** `["wlan0"]` is such a list. */
  lemma FallbackIsWlanList()
    ensures WlanList([DefaultWlan])
  {
    assert "wlan" <= DefaultWlan;
  }

  /** When the listing names some `wlan` interfaces, the result is exactly those names,
      each as often as listed; otherwise it is `["wlan0"]`. */
  lemma DetectWlansExact(out: string, names: seq<string>)
    requires names == SplitOn(Strip(out), '\n')
    ensures (exists k :: 0 <= k < |names| && "wlan" <= names[k]) ==>
      multiset(DetectWlans(Some(out))) == multiset(WlanNames(names))
    ensures (forall k :: 0 <= k < |names| ==> !("wlan" <= names[k])) ==> DetectWlans(Some(out)) == [DefaultWlan]
  {
    if exists k :: 0 <= k < |names| && "wlan" <= names[k] {
      var k :| 0 <= k < |names| && "wlan" <= names[k];
      WlanNamesNonEmpty(names, k);
    } else {
      WlanNamesEmpty(names);
    }
  }

  /** Every name `sorted` returns from the filter starts with `wlan`. */
  lemma SortedWlansNamed(names: seq<string>, r: seq<string>)
    requires r == SortNames(WlanNames(names))
    ensures SortedNames(r) && forall k :: 0 <= k < |r| ==> "wlan" <= r[k]
  {
    SortNamesSorted(WlanNames(names));
    forall k | 0 <= k < |r|
      ensures "wlan" <= r[k]
    {
      assert r[k] in multiset(r);
    }
  }

  /** A listed `wlan` name survives the filter and the sort. */
  lemma WlanNamesNonEmpty(names: seq<string>, k: nat)
    requires k < |names| && "wlan" <= names[k]
    ensures SortNames(WlanNames(names)) != []
  {
    assert names[k] in multiset(names);
    assert names[k] in multiset(SortNames(WlanNames(names)));
  }

  /** With no `wlan` name listed, the filter keeps nothing. */
  lemma {:induction false} WlanNamesEmpty(names: seq<string>)
    requires forall k :: 0 <= k < |names| ==> !("wlan" <= names[k])
    ensures WlanNames(names) == []
  {
    if names != [] {
      WlanNamesEmpty(names[..|names| - 1]);
    }
  }

  /** `get_current_wlan`: the interface at the selected index, else the first one, else
      `"wlan0"`. */
  function CurrentWlan(available: seq<string>, idx: nat): string {
    if idx < |available| then available[idx]
    else if available != [] then available[0]
    else DefaultWlan
  }

  /** KEY3 on the interface line: `(current_wlan_idx + 1) % len(available_wlans)`. */
  function NextWlanIndex(idx: nat, count: nat): (r: nat)
    requires count > 0
    ensures r < count
  {
    (idx + 1) % count
  }

  /** Starting from 0 and stepping with KEY3, the index always names one of the detected
      interfaces, so the current interface is that one and is named `wlan...`. */
  lemma CurrentWlanDetected(listing: Option<string>, idx: nat)
    requires idx < |DetectWlans(listing)|
    ensures CurrentWlan(DetectWlans(listing), idx) == DetectWlans(listing)[idx]
    ensures "wlan" <= CurrentWlan(DetectWlans(listing), idx)
    ensures NextWlanIndex(idx, |DetectWlans(listing)|) < |DetectWlans(listing)|
  {
    DetectWlansNamed(listing);
  }

  // ------------------------------------------------------------------ int(signal)

  predicate IsDigits(s: string) {
    s != [] && forall k :: 0 <= k < |s| ==> '0' <= s[k] <= '9'
  }

  /** Python `int(s)` on a decimal literal: surrounding whitespace, an optional sign and
      at least one ASCII digit give `Some(value)`; anything else raises `ValueError`,
      written `None`. */
  function PyInt(s: string): (r: Option<int>)
    ensures IsBlank(s) ==> r.None?
  {
    IntLiteral(Strip(s))
  }

  /** The literal once the whitespace is gone: an optional sign, then digits. */
  function IntLiteral(t: string): Option<int> {
    if t != [] && (t[0] == '-' || t[0] == '+') then
      if IsDigits(t[1..]) then Some(if t[0] == '-' then -DigitsValue(t[1..]) else DigitsValue(t[1..]))
      else None
    else if IsDigits(t) then Some(DigitsValue(t))
    else None
  }

  /** `int(str(n)) == n`, so every signal nmcli prints as a number reads back. */
  lemma PyIntOfDecimal(n: int)
    ensures PyInt(IntToString(n)) == Some(n)
  {
    DecimalIsStripped(n);
    LiteralOfDecimal(n);
  }

  /** `str(n)` read as a literal. */
  lemma LiteralOfDecimal(n: int)
    ensures IntLiteral(IntToString(n)) == Some(n)
  {
    var s := IntToString(n);
    if n < 0 {
      assert s[1..] == NatToString(-n);
      NatToStringRoundTrip(-n);
    } else {
      NatToStringRoundTrip(n);
    }
  }

  /** `str(n)` has no whitespace at either end. */
  lemma DecimalIsStripped(n: int)
    ensures Strip(IntToString(n)) == IntToString(n)
  {
    var s := IntToString(n);
    assert !IsSpace(s[0]) && !IsSpace(s[|s| - 1]);
    StrippedIsFixed(s);
  }

  // ------------------------------------------------------------- the scan lines

  /** A network of a scan: its SSID and the signal text nmcli printed. */
  datatype Net = Net(ssid: string, signal: string)

  /** One line of `nmcli -t -f SSID,SIGNAL device wifi list`: kept when it is not empty,
      holds a `:`, its first field is not empty and is not the connected SSID; the
      signal is the second field. */
  function ParseLine(line: string, connected: Option<string>): (r: Option<Net>)
    ensures r.Some? ==> r.value.ssid != [] && Lacks(r.value.ssid, ':') && connected != Some(r.value.ssid)
  {
    if line != [] && ':' in line then
      var parts := SplitOn(line, ':');
      if |parts| >= 2 && parts[0] != [] then
        var ssid := parts[0];
        var signal := if |parts| > 1 then parts[1] else "0";
        if connected != Some(ssid) then Some(Net(ssid, signal)) else None
      else None
    else None
  }

  /** A line written as `SSID:SIGNAL`, with neither field holding a `:`, is read back
      as that network unless it is the connected one; a line with an empty SSID is
      skipped. */
  lemma ParseLineInverse(ssid: string, signal: string, connected: Option<string>)
    requires Lacks(ssid, ':') && Lacks(signal, ':')
    ensures ssid != [] && connected != Some(ssid) ==> ParseLine(ssid + ":" + signal, connected) == Some(Net(ssid, signal))
    ensures ssid == [] || connected == Some(ssid) ==> ParseLine(ssid + ":" + signal, connected).None?
  {
    var line := ssid + ":" + signal;
    assert line[|ssid|] == ':';
    FindUnique(line, ':', |ssid|);
    assert line[..|ssid|] == ssid && line[|ssid| + 1..] == signal;
    FindUnique(signal, ':', |signal|);
    assert SplitOn(signal, ':') == [signal];
    assert SplitOn(line, ':') == [ssid, signal];
  }

  /** The networks the first loop of `scan_wifi` collects from the output lines. */
  function Candidates(lines: seq<string>, connected: Option<string>): (r: seq<Net>)
    ensures forall k :: 0 <= k < |r| ==> r[k].ssid != [] && connected != Some(r[k].ssid)
  {
    if lines == [] then []
    else
      var prev := Candidates(lines[..|lines| - 1], connected);
      match ParseLine(lines[|lines| - 1], connected)
      case Some(n) => prev + [n]
      case None => prev
  }

  // ---------------------------------------------------------- collapsing duplicates

  /** The signal as a number, `0` standing in for a text `int()` rejects. */
  function Level(n: Net): int {
    match PyInt(n.signal)
    case Some(v) => v
    case None => 0
  }

  /** Every signal reads as a number. */
  predicate AllParse(nets: seq<Net>) {
    forall k :: 0 <= k < |nets| ==> PyInt(nets[k].signal).Some?
  }

  /** No SSID occurs twice. */
  predicate DistinctSsids(nets: seq<Net>) {
    forall i, j :: 0 <= i < j < |nets| ==> nets[i].ssid != nets[j].ssid
  }

  /** Position of the entry for `ssid` in the `seen` dictionary (kept in insertion
      order), or its size when there is none. */
  function IndexOfSsid(seen: seq<Net>, ssid: string): (i: nat)
    ensures i <= |seen|
    ensures i < |seen| ==> seen[i].ssid == ssid
    ensures forall j :: 0 <= j < i ==> seen[j].ssid != ssid
  {
    if seen == [] then 0
    else if seen[0].ssid == ssid then 0
    else 1 + IndexOfSsid(seen[1..], ssid)
  }

  /** With distinct SSIDs the entry for an SSID is the one holding it. */
  lemma IndexOfDistinct(seen: seq<Net>, i: nat)
    requires DistinctSsids(seen) && i < |seen|
    ensures IndexOfSsid(seen, seen[i].ssid) == i
  {
  }

  /** One step of the second loop, with `key` reading a signal: a new SSID is added at
      the end; a stronger signal replaces the entry in place; anything else is dropped. */
  function Merge(seen: seq<Net>, n: Net, key: Net -> int): seq<Net> {
    var i := IndexOfSsid(seen, n.ssid);
    if i == |seen| then seen + [n]
    else if key(n) > key(seen[i]) then seen[i := n]
    else seen
  }

  /** `seen` after the second loop of `scan_wifi`. */
  function Collapse(nets: seq<Net>, key: Net -> int): seq<Net> {
    if nets == [] then []
    else Merge(Collapse(nets[..|nets| - 1], key), nets[|nets| - 1], key)
  }

  /** Every entry of `seen` is one of the networks read. */
  predicate Members(seen: seq<Net>, nets: seq<Net>) {
    forall i :: 0 <= i < |seen| ==> seen[i] in nets
  }

  /** Every network read is represented by the entry for its SSID, whose signal is at
      least as strong. */
  predicate Covers(seen: seq<Net>, nets: seq<Net>, key: Net -> int) {
    forall x :: x in nets ==>
      IndexOfSsid(seen, x.ssid) < |seen| && key(x) <= key(seen[IndexOfSsid(seen, x.ssid)])
  }

  /** A merge step keeps the SSIDs distinct. */
  lemma MergeDistinct(seen: seq<Net>, n: Net, key: Net -> int)
    requires DistinctSsids(seen)
    ensures DistinctSsids(Merge(seen, n, key))
  {
  }

  /** A merge step only ever adds the network it merges. */
  lemma MergeMembers(seen: seq<Net>, nets: seq<Net>, n: Net, key: Net -> int)
    requires Members(seen, nets)
    ensures Members(Merge(seen, n, key), nets + [n])
  {
  }

  /** A merge step keeps every network read represented, the merged one included. */
  lemma MergeCovers(seen: seq<Net>, nets: seq<Net>, n: Net, key: Net -> int)
    requires DistinctSsids(seen) && Covers(seen, nets, key)
    ensures Covers(Merge(seen, n, key), nets + [n], key)
  {
    var i := IndexOfSsid(seen, n.ssid);
    var m := Merge(seen, n, key);
    MergeDistinct(seen, n, key);
    forall x | x in nets + [n]
      ensures IndexOfSsid(m, x.ssid) < |m| && key(x) <= key(m[IndexOfSsid(m, x.ssid)])
    {
      var j := if x == n then i else IndexOfSsid(seen, x.ssid);
      assert m[j].ssid == x.ssid;
      IndexOfDistinct(m, j);
    }
  }

  /** After the second loop, the SSIDs are distinct, every entry is one of the networks
      read, and every network read is represented by the entry for its SSID with a
      signal at least as strong. */
  lemma {:induction false} CollapseRepresents(nets: seq<Net>, key: Net -> int)
    ensures DistinctSsids(Collapse(nets, key))
    ensures Members(Collapse(nets, key), nets)
    ensures Covers(Collapse(nets, key), nets, key)
  {
    if nets != [] {
      var prefix := nets[..|nets| - 1];
      var last := nets[|nets| - 1];
      CollapseRepresents(prefix, key);
      var c := Collapse(prefix, key);
      MergeDistinct(c, last, key);
      MergeMembers(c, prefix, last, key);
      MergeCovers(c, prefix, last, key);
      assert prefix + [last] == nets;
    }
  }

  // ------------------------------------------------------------ ordering by signal

  /** Each entry's signal is at least as strong as any later one's. */
  predicate Descending(nets: seq<Net>, key: Net -> int) {
    forall i, j :: 0 <= i < j < |nets| ==> key(nets[i]) >= key(nets[j])
  }

  /** Insert `x` after every entry at least as strong, so that among equal signals the
      earlier entry stays first. */
  function InsertBySignal(s: seq<Net>, x: Net, key: Net -> int): (r: seq<Net>)
    ensures multiset(r) == multiset(s) + multiset{x}
  {
    if s == [] then [x]
    else if key(s[0]) >= key(x) then
      assert s == [s[0]] + s[1..];
      [s[0]] + InsertBySignal(s[1..], x, key)
    else [x] + s
  }

  /** `list.sort(key=..., reverse=True)`: a stable sort, strongest signal first. */
  function SortBySignal(s: seq<Net>, key: Net -> int): (r: seq<Net>)
    ensures multiset(r) == multiset(s)
  {
    if s == [] then []
    else
      assert s == s[..|s| - 1] + [s[|s| - 1]];
      InsertBySignal(SortBySignal(s[..|s| - 1], key), s[|s| - 1], key)
  }

  /** The entries of an insertion are those of `s` and `x`. */
  lemma InsertBySignalMembers(s: seq<Net>, x: Net, key: Net -> int, k: nat)
    requires k < |InsertBySignal(s, x, key)|
    ensures InsertBySignal(s, x, key)[k] == x || InsertBySignal(s, x, key)[k] in s
  {
    var t := InsertBySignal(s, x, key);
    assert t[k] in multiset(t);
  }

  /** Inserting keeps the order. */
  lemma {:induction false} InsertBySignalOrdered(s: seq<Net>, x: Net, key: Net -> int)
    requires Descending(s, key)
    ensures Descending(InsertBySignal(s, x, key), key)
  {
    if s != [] && key(s[0]) >= key(x) {
      var t := InsertBySignal(s[1..], x, key);
      InsertBySignalOrdered(s[1..], x, key);
      forall k | 0 <= k < |t|
        ensures key(s[0]) >= key(t[k])
      {
        InsertBySignalMembers(s[1..], x, key, k);
      }
      assert InsertBySignal(s, x, key) == [s[0]] + t;
    }
  }

  /** Inserting an entry with a new SSID keeps the SSIDs distinct. */
  lemma {:induction false} InsertBySignalDistinct(s: seq<Net>, x: Net, key: Net -> int)
    requires DistinctSsids(s) && forall k :: 0 <= k < |s| ==> s[k].ssid != x.ssid
    ensures DistinctSsids(InsertBySignal(s, x, key))
  {
    if s != [] && key(s[0]) >= key(x) {
      var t := InsertBySignal(s[1..], x, key);
      InsertBySignalDistinct(s[1..], x, key);
      forall k | 0 <= k < |t|
        ensures s[0].ssid != t[k].ssid
      {
        InsertBySignalMembers(s[1..], x, key, k);
      }
      assert InsertBySignal(s, x, key) == [s[0]] + t;
    }
  }

  /** The sort orders by signal and keeps distinct SSIDs distinct. */
  lemma {:induction false} SortBySignalKeeps(s: seq<Net>, key: Net -> int)
    ensures Descending(SortBySignal(s, key), key)
    ensures DistinctSsids(s) ==> DistinctSsids(SortBySignal(s, key))
  {
    if s != [] {
      var prefix := s[..|s| - 1];
      var x := s[|s| - 1];
      SortBySignalKeeps(prefix, key);
      var t := SortBySignal(prefix, key);
      InsertBySignalOrdered(t, x, key);
      if DistinctSsids(s) {
        forall k | 0 <= k < |t|
          ensures t[k].ssid != x.ssid
        {
          assert t[k] in multiset(prefix);
        }
        InsertBySignalDistinct(t, x, key);
      }
    }
  }

  // ------------------------------------------------------------------- scan_wifi

  /** `scan_wifi` after its `nmcli` runs, given their output (`None` when a run raised)
      and the SSID the interface is connected to, if any. A signal that `int()` rejects
      raises `ValueError` on its way through the second loop or the sort, and the
      handler then leaves the list empty. */
  function ScanNetworks(output: Option<string>, connected: Option<string>): seq<Net> {
    match output
    case None => []
    case Some(out) =>
      var c := Candidates(SplitOn(Strip(out), '\n'), connected);
      if AllParse(c) then SortBySignal(Collapse(c, Level), Level) else []
  }

  /** The first loop of `scan_wifi`, over the lines of the output. */
  method CollectNetworks(lines: seq<string>, connected: Option<string>) returns (networks: seq<Net>)
    ensures networks == Candidates(lines, connected)
  {
    networks := [];
    for k := 0 to |lines|
      invariant networks == Candidates(lines[..k], connected)
    {
      assert lines[..k + 1][..k] == lines[..k];
      var line := lines[k];
      if line != [] && ':' in line {
        var parts := SplitOn(line, ':');
        if |parts| >= 2 && parts[0] != [] {
          var ssid := parts[0];
          var signal := if |parts| > 1 then parts[1] else "0";
          if connected != Some(ssid) {
            networks := networks + [Net(ssid, signal)];
          }
        }
      }
    }
    SeqPrefixAll(lines);
  }

  /** `scan_wifi`: collect the networks, keep the strongest entry per SSID, and sort by
      signal. An `int()` that fails on the way empties the list. */
  method ScanWifi(output: Option<string>, connected: Option<string>) returns (networks: seq<Net>)
    ensures networks == ScanNetworks(output, connected)
  {
    if output.None? {
      return [];
    }
    var found := CollectNetworks(SplitOn(Strip(output.value), '\n'), connected);
    var seen, ok := KeepStrongest(found);
    if !ok {
      return [];
    }
    CollapseRepresents(found, Level);
    if !AllParse(seen) {
      var i :| 0 <= i < |seen| && PyInt(seen[i].signal).None?;
      UnparsedMember(seen, found, i);
      return [];
    }
    networks := SortBySignal(seen, Level);
  }

  /** The second loop of `scan_wifi`: `seen` is a dictionary from SSID to network that
      remembers insertion order. Comparing two signals reads both with `int()`; `ok` is
      false when one of them raised. A network seen only once is not read here, so its
      signal is only checked by the sort. */
  method KeepStrongest(found: seq<Net>) returns (seen: seq<Net>, ok: bool)
    ensures ok ==> seen == Collapse(found, Level) && (AllParse(seen) ==> AllParse(found))
    ensures !ok ==> !AllParse(found)
  {
    seen := [];
    for k := 0 to |found|
      invariant seen == Collapse(found[..k], Level)
      invariant Tracked(found, k, seen)
    {
      assert found[..k + 1][..k] == found[..k];
      var net := found[k];
      var i := IndexOfSsid(seen, net.ssid);
      if i == |seen| {
        TrackAfterAppend(found, k, seen);
        seen := seen + [net];
      } else {
        var a := PyInt(net.signal);
        var b := PyInt(seen[i].signal);
        if a.None? || b.None? {
          if a.None? {
            assert !PyInt(found[k].signal).Some?;
          } else {
            CollapseRepresents(found[..k], Level);
            UnparsedMember(seen, found[..k], i);
            assert found[..k] == found[..k + 1][..k];
          }
          SeqPrefixAll(found);
          return seen, false;
        }
        assert Level(net) == a.value && Level(seen[i]) == b.value;
        if a.value > b.value {
          TrackAfterReplace(found, k, seen, i);
          seen := seen[i := net];
        } else {
          TrackAfterKeep(found, k, seen);
        }
      }
    }
    SeqPrefixAll(found);
    if AllParse(seen) {
      ParsedThrough(found, seen);
    }
    ok := true;
  }

  /** Every network read so far is readable or kept in `seen`. */
  predicate Tracked(found: seq<Net>, k: nat, seen: seq<Net>)
    requires k <= |found|
  {
    forall j :: 0 <= j < k ==> PyInt(found[j].signal).Some? || found[j] in seen
  }

  /** Adding the next network keeps the networks read so far tracked. */
  lemma TrackAfterAppend(found: seq<Net>, k: nat, seen: seq<Net>)
    requires k < |found| && Tracked(found, k, seen)
    ensures Tracked(found, k + 1, seen + [found[k]])
  {
    forall j | 0 <= j < k + 1 && !PyInt(found[j].signal).Some?
      ensures found[j] in seen + [found[k]]
    {
      if j < k {
        var m :| 0 <= m < |seen| && seen[m] == found[j];
        assert (seen + [found[k]])[m] == found[j];
      }
    }
  }

  /** Replacing a readable entry by the next network keeps them tracked. */
  lemma TrackAfterReplace(found: seq<Net>, k: nat, seen: seq<Net>, i: nat)
    requires k < |found| && i < |seen| && PyInt(seen[i].signal).Some? && Tracked(found, k, seen)
    ensures Tracked(found, k + 1, seen[i := found[k]])
  {
    forall j | 0 <= j < k + 1 && !PyInt(found[j].signal).Some?
      ensures found[j] in seen[i := found[k]]
    {
      if j < k {
        var m :| 0 <= m < |seen| && seen[m] == found[j];
        assert m != i && seen[i := found[k]][m] == found[j];
      } else {
        assert seen[i := found[k]][i] == found[j];
      }
    }
  }

  /** Dropping a readable network keeps them tracked. */
  lemma TrackAfterKeep(found: seq<Net>, k: nat, seen: seq<Net>)
    requires k < |found| && PyInt(found[k].signal).Some? && Tracked(found, k, seen)
    ensures Tracked(found, k + 1, seen)
  {
  }

  /** An entry of `seen` whose signal `int()` rejects is a network read with that signal. */
  lemma UnparsedMember(seen: seq<Net>, found: seq<Net>, i: nat)
    requires Members(seen, found) && i < |seen| && PyInt(seen[i].signal).None?
    ensures !AllParse(found)
  {
    var j :| 0 <= j < |found| && found[j] == seen[i];
  }

  /** When every network read is either readable or kept, and every kept one is
      readable, all of them are. */
  lemma ParsedThrough(found: seq<Net>, seen: seq<Net>)
    requires Tracked(found, |found|, seen) && AllParse(seen)
    ensures AllParse(found)
  {
    forall j | 0 <= j < |found|
      ensures PyInt(found[j].signal).Some?
    {
      if found[j] in seen {
        var m :| 0 <= m < |seen| && seen[m] == found[j];
      }
    }
  }

  /** Sorting keeps every entry one of the networks read. */
  lemma SortKeepsMembers(col: seq<Net>, c: seq<Net>, key: Net -> int, r: seq<Net>)
    requires Members(col, c) && r == SortBySignal(col, key)
    ensures Members(r, c)
  {
    forall k | 0 <= k < |r|
      ensures r[k] in c
    {
      assert r[k] in multiset(col);
    }
  }

  /** Sorting keeps every network read represented under its SSID. */
  lemma SortKeepsCover(col: seq<Net>, c: seq<Net>, key: Net -> int, r: seq<Net>)
    requires Covers(col, c, key) && r == SortBySignal(col, key)
    ensures forall x :: x in c ==> exists k :: 0 <= k < |r| && r[k].ssid == x.ssid && key(x) <= key(r[k])
  {
    forall x | x in c
      ensures exists k :: 0 <= k < |r| && r[k].ssid == x.ssid && key(x) <= key(r[k])
    {
      var y := col[IndexOfSsid(col, x.ssid)];
      assert y in multiset(r);
      var k :| 0 <= k < |r| && r[k] == y;
    }
  }

  /** Collapsing and sorting by any key: SSIDs distinct, ordered by the key, every entry
      one of the networks, and every network represented under its SSID by an entry at
      least as strong. */
  lemma CollapseThenSort(c: seq<Net>, key: Net -> int, r: seq<Net>)
    requires r == SortBySignal(Collapse(c, key), key)
    ensures DistinctSsids(r) && Descending(r, key) && Members(r, c)
    ensures forall x :: x in c ==> exists k :: 0 <= k < |r| && r[k].ssid == x.ssid && key(x) <= key(r[k])
  {
    var col := Collapse(c, key);
    CollapseRepresents(c, key);
    SortBySignalKeeps(col, key);
    SortKeepsMembers(col, c, key, r);
    SortKeepsCover(col, c, key, r);
  }

  /** Whatever nmcli printed, a scan lists each SSID at most once, strongest signal
      first, every signal a number, every entry a network nmcli reported, and never an
      empty SSID or the connected one. When every signal reads as a number, every
      reported network other than the connected one is listed under its SSID with a
      signal at least as strong; a single signal `int()` rejects empties the list. */
  lemma ScanNetworksShape(out: string, connected: Option<string>, c: seq<Net>, r: seq<Net>)
    requires c == Candidates(SplitOn(Strip(out), '\n'), connected)
    requires r == ScanNetworks(Some(out), connected)
    ensures DistinctSsids(r) && Descending(r, Level) && AllParse(r) && Members(r, c)
    ensures forall k :: 0 <= k < |r| ==> r[k].ssid != [] && connected != Some(r[k].ssid)
    ensures AllParse(c) ==> forall x :: x in c ==>
      exists k :: 0 <= k < |r| && r[k].ssid == x.ssid && Level(x) <= Level(r[k])
    ensures !AllParse(c) ==> r == []
  {
    ScanOfCandidates(c, connected, r);
  }

  /** The same facts for the collapse and sort of any list of candidates. */
  lemma ScanOfCandidates(c: seq<Net>, connected: Option<string>, r: seq<Net>)
    requires forall k :: 0 <= k < |c| ==> c[k].ssid != [] && connected != Some(c[k].ssid)
    requires r == if AllParse(c) then SortBySignal(Collapse(c, Level), Level) else []
    ensures DistinctSsids(r) && Descending(r, Level) && AllParse(r) && Members(r, c)
    ensures forall k :: 0 <= k < |r| ==> r[k].ssid != [] && connected != Some(r[k].ssid)
    ensures AllParse(c) ==> forall x :: x in c ==>
      exists k :: 0 <= k < |r| && r[k].ssid == x.ssid && Level(x) <= Level(r[k])
  {
    if AllParse(c) {
      CollapseThenSort(c, Level, r);
      forall k | 0 <= k < |r|
        ensures PyInt(r[k].signal).Some? && r[k].ssid != [] && connected != Some(r[k].ssid)
      {
        var j :| 0 <= j < |c| && c[j] == r[k];
      }
    }
  }
}
