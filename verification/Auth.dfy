/** Credential selection for one camera: which candidates there are, in which order they are tried,
    and what becomes of the session that each attempt opens. */
module Auth {
  import opened Bytes

  datatype Source = Account | EmptyPassword | Fallback | Manual

  datatype Candidate = Candidate(source: Source, password: string, sourceUid: Option<string>)

  const FALLBACK_PASSWORD := "888888"

  // ---- Candidates ----

  /** A configured password as the caller passes it: absent, a text, or no text at all. */
  datatype Configured = Absent | Text(password: string) | Bad

  /** The password of the account device: its text, if any, and whether the account response is
      known to hold one. */
  datatype Associated = Associated(password: Option<string>, present: bool)

  datatype Device = Device(uid: Option<string>, password: Option<string>)

  datatype Request = Request(configured: Configured, strict: bool, associated: Associated, uid: Option<string>,
                             devices: seq<Device>, fold: string -> string)

  predicate Filled(s: Option<string>) {
    s.Some? && s.value != ""
  }

  /** Another device of the account with a password of its own. */
  predicate Offers(r: Request, d: Device) {
    Filled(d.uid) && Filled(d.password) && !(Filled(r.uid) && r.fold(d.uid.value) == r.fold(r.uid.value))
  }

  function FromDevices(r: Request, devices: seq<Device>): seq<Candidate> {
    if devices == [] then []
    else (if Offers(r, devices[0]) then [Candidate(Account, devices[0].password.value, devices[0].uid)] else [])
         + FromDevices(r, devices[1..])
  }

  /** All candidates in order, repetitions included. */
  function Proposed(r: Request): seq<Candidate> {
    (if r.configured.Text? && r.configured.password != "" then [Candidate(Manual, r.configured.password, None)] else [])
    + (if Filled(r.associated.password) then [Candidate(Account, r.associated.password.value, r.uid)] else [])
    + FromDevices(r, r.devices)
    + (if r.associated.present && r.associated.password == Some("") then [Candidate(EmptyPassword, "", None)] else [])
    + [Candidate(Fallback, FALLBACK_PASSWORD, None)]
  }

  /** What the account knows of another device: it has an identifier and a password, and the identifier
      is not that of the camera itself. */
  ghost predicate OtherDevice(r: Request, d: Device) {
    && d.uid.Some? && d.uid.value != "" && d.password.Some? && d.password.value != ""
    && (r.uid.None? || r.uid.value == "" || r.fold(d.uid.value) != r.fold(r.uid.value))
  }

  /** One candidate for every other device of the account, in the order of the devices. */
  lemma {:induction false} FromDevicesAppend(r: Request, devices: seq<Device>, more: seq<Device>)
    ensures FromDevices(r, devices + more) == FromDevices(r, devices) + FromDevices(r, more)
  {
    hide Offers;
    if devices == [] {
      assert devices + more == more;
    } else {
      assert (devices + more)[1..] == devices[1..] + more;
      FromDevicesAppend(r, devices[1..], more);
    }
  }

  lemma FromOneDevice(r: Request, d: Device)
    ensures FromDevices(r, [d]) == if OtherDevice(r, d) then [Candidate(Account, d.password.value, d.uid)] else []
  {
    assert [d][1..] == [];
  }

  lemma {:induction false} FromDevicesHas(r: Request, devices: seq<Device>, c: Candidate)
    ensures c in FromDevices(r, devices) <==>
              exists d :: d in devices && OtherDevice(r, d) && c == Candidate(Account, d.password.value, d.uid)
  {
    if devices != [] {
      FromDevicesHas(r, devices[1..], c);
      assert forall d :: d in devices <==> d == devices[0] || d in devices[1..];
    }
  }

  /** Every candidate there is, and why: the configured password, the camera's own password in the
      account, that of each other device of the account, the empty password when the account says so,
      and the fixed fallback. */
  lemma ProposedAre(r: Request, c: Candidate)
    ensures c in Proposed(r) <==>
              || (r.configured.Text? && r.configured.password != "" && c == Candidate(Manual, r.configured.password, None))
              || (r.associated.password.Some? && r.associated.password.value != ""
                  && c == Candidate(Account, r.associated.password.value, r.uid))
              || (exists d :: d in r.devices && OtherDevice(r, d) && c == Candidate(Account, d.password.value, d.uid))
              || (r.associated.present && r.associated.password == Some("") && c == Candidate(EmptyPassword, "", None))
              || c == Candidate(Fallback, "888888", None)
  {
    FromDevicesHas(r, r.devices, c);
  }

  function Rank(s: Source): nat {
    match s
    case Manual => 0
    case Account => 1
    case EmptyPassword => 2
    case Fallback => 3
  }

  /** They come in the order of these sources, the camera's own password before those of others. */
  lemma ProposedInOrder(r: Request, i: nat, j: nat)
    requires i < j < |Proposed(r)|
    ensures Rank(Proposed(r)[i].source) <= Rank(Proposed(r)[j].source)
    ensures r.associated.password.Some? && r.associated.password.value != "" ==>
              var own := if r.configured.Text? && r.configured.password != "" then 1 else 0;
              Proposed(r)[own] == Candidate(Account, r.associated.password.value, r.uid)
  {
    DevicesAreAccount(r, r.devices);
  }

  lemma {:induction false} DevicesAreAccount(r: Request, devices: seq<Device>)
    ensures forall c :: c in FromDevices(r, devices) ==> c.source == Account
  {
    if devices != [] {
      DevicesAreAccount(r, devices[1..]);
    }
  }

  /** The candidates whose password has not been seen before. */
  function Unique(cs: seq<Candidate>, seen: set<string>): seq<Candidate>
    decreases |cs|
  {
    if cs == [] then []
    else if cs[0].password in seen then Unique(cs[1..], seen)
    else [cs[0]] + Unique(cs[1..], seen + {cs[0].password})
  }

  predicate Has(cs: seq<Candidate>, password: string)
    decreases |cs|
  {
    cs != [] && (cs[0].password == password || Has(cs[1..], password))
  }

  predicate Distinct(cs: seq<Candidate>)
    decreases |cs|
  {
    cs == [] || (!Has(cs[1..], cs[0].password) && Distinct(cs[1..]))
  }

  lemma {:induction false} HasAt(cs: seq<Candidate>, k: nat)
    requires k < |cs|
    ensures Has(cs, cs[k].password)
    decreases |cs|
  {
    if k > 0 {
      HasAt(cs[1..], k - 1);
    }
  }

  lemma {:induction false} DistinctAt(cs: seq<Candidate>, i: nat, j: nat)
    requires Distinct(cs) && i < j < |cs|
    ensures cs[i].password != cs[j].password
    decreases |cs|
  {
    if i == 0 {
      HasAt(cs[1..], j - 1);
    } else {
      DistinctAt(cs[1..], i - 1, j - 1);
    }
  }

  /** Every password is kept, but for those seen before. */
  lemma {:induction false} UniqueHas(cs: seq<Candidate>, seen: set<string>, password: string)
    ensures Has(Unique(cs, seen), password) <==> Has(cs, password) && password !in seen
    decreases |cs|
  {
    if cs != [] {
      if cs[0].password in seen {
        UniqueHas(cs[1..], seen, password);
      } else {
        var rest := Unique(cs[1..], seen + {cs[0].password});
        UniqueHas(cs[1..], seen + {cs[0].password}, password);
        assert ([cs[0]] + rest)[1..] == rest;
      }
    }
  }

  lemma {:induction false} UniqueDistinct(cs: seq<Candidate>, seen: set<string>)
    ensures Distinct(Unique(cs, seen))
    decreases |cs|
  {
    if cs != [] {
      if cs[0].password in seen {
        UniqueDistinct(cs[1..], seen);
      } else {
        var rest := Unique(cs[1..], seen + {cs[0].password});
        UniqueDistinct(cs[1..], seen + {cs[0].password});
        UniqueHas(cs[1..], seen + {cs[0].password}, cs[0].password);
        assert ([cs[0]] + rest)[1..] == rest;
      }
    }
  }

  /** The first candidate with a password is the one that is kept. */
  lemma {:induction false} UniqueFirst(cs: seq<Candidate>, seen: set<string>, k: nat)
    requires k < |cs| && cs[k].password !in seen
    requires forall j :: 0 <= j < k ==> cs[j].password != cs[k].password
    ensures cs[k] in Unique(cs, seen)
    decreases |cs|
  {
    if k > 0 {
      var tail := cs[1..];
      assert tail[k - 1] == cs[k];
      assert forall j :: 0 <= j < k - 1 ==> tail[j] == cs[j + 1];
      UniqueFirst(tail, if cs[0].password in seen then seen else seen + {cs[0].password}, k - 1);
    }
  }

  /** `build_candidates`; nothing for a configured password that is no text. */
  method BuildCandidates(r: Request) returns (result: Option<seq<Candidate>>)
    ensures r.strict ==> result == if r.configured.Text? then Some([Candidate(Manual, r.configured.password, None)]) else None
    ensures !r.strict ==> result == if r.configured.Bad? then None else Some(Unique(Proposed(r), {}))
  {
    if r.strict {
      return if r.configured.Text? then Some([Candidate(Manual, r.configured.password, None)]) else None;
    }
    var candidates: seq<Candidate> := [];
    if r.configured.Bad? {
      return None;
    }
    if r.configured.Text? && r.configured.password != "" {
      candidates := candidates + [Candidate(Manual, r.configured.password, None)];
    }
    if Filled(r.associated.password) {
      candidates := candidates + [Candidate(Account, r.associated.password.value, r.uid)];
    }
    ghost var front := candidates;
    assert r.devices[0..] == r.devices;
    for i := 0 to |r.devices|
      invariant candidates + FromDevices(r, r.devices[i..]) == front + FromDevices(r, r.devices)
    {
      var d := r.devices[i];
      assert r.devices[i..][1..] == r.devices[i + 1..];
      if Offers(r, d) {
        candidates := candidates + [Candidate(Account, d.password.value, d.uid)];
      }
    }
    assert candidates + [] == candidates;
    assert candidates == front + FromDevices(r, r.devices);
    if r.associated.present && r.associated.password == Some("") {
      candidates := candidates + [Candidate(EmptyPassword, "", None)];
    }
    candidates := candidates + [Candidate(Fallback, FALLBACK_PASSWORD, None)];
    assert candidates == Proposed(r);
    var unique := KeepFirst(candidates);
    return Some(unique);
  }

  /** The last loop of `build_candidates`. */
  method KeepFirst(candidates: seq<Candidate>) returns (result: seq<Candidate>)
    ensures result == Unique(candidates, {})
  {
    var seen: set<string> := {};
    result := [];
    for i := 0 to |candidates|
      invariant result + Unique(candidates[i..], seen) == Unique(candidates, {})
    {
      var candidate := candidates[i];
      assert candidates[i..][1..] == candidates[i + 1..];
      if candidate.password !in seen {
        seen := seen + {candidate.password};
        result := result + [candidate];
      }
    }
  }

  /** The candidates of a request have distinct passwords, offer every password that was proposed,
      the fixed fallback among them, and begin with the configured password if there is one. */
  lemma CandidatesOf(r: Request, password: string)
    ensures var cs := Unique(Proposed(r), {});
            && Distinct(cs)
            && (Has(cs, password) <==> Has(Proposed(r), password))
            && Has(cs, FALLBACK_PASSWORD)
            && (r.configured.Text? && r.configured.password != "" ==> cs[0] == Candidate(Manual, r.configured.password, None))
  {
    var all := Proposed(r);
    UniqueDistinct(all, {});
    UniqueHas(all, {}, password);
    UniqueHas(all, {}, FALLBACK_PASSWORD);
    HasAt(all, |all| - 1);
  }
}
