/** The pins and the SSH key of one target (internal/bootstrap/bootstrap.go and
    pintls.go): which run may record or replace a TLS or SSH host key pin, what each
    recorded source means, and what becomes of a key that a run installs. */
module Pins {
  import opened Common
  import opened Text

  /** How a pin was first obtained. */
  datatype Source = SSHVerified | SSHTofu | SSHStored | Expected

  datatype Tls = Tls(pin: string, source: Source)

  /** An SSH block; one without a fingerprint pins nothing. */
  datatype Ssh = Ssh(fp: string, key: nat, source: Source)

  datatype Target = Target(insecureTLS: bool, ssh: Option<Ssh>, tls: Option<Tls>, token: string)

  function TlsOf(t: Option<Target>): Option<Tls> {
    if t.Some? then t.value.tls else None
  }

  function SshOf(t: Option<Target>): Option<Ssh> {
    if t.Some? then t.value.ssh else None
  }

  /** The stored TLS pin, "" for none. */
  function PinOf(t: Option<Target>): string {
    if TlsOf(t).Some? then TlsOf(t).value.pin else ""
  }

  /** The stored SSH host key pin, "" for none. */
  function FingerprintOf(t: Option<Target>): string {
    if SshOf(t).Some? then SshOf(t).value.fp else ""
  }

  /** The roster's entry for the target. A write that fails leaves it as it was. */
  class RosterFile {
    var target: Option<Target>
    ghost var faults: nat // reads and writes that failed
    ghost var unlocked: bool // the passphrase has been proven

    constructor (target: Option<Target>)
      ensures this.target == target && faults == 0 && !unlocked
    {
      this.target, faults, unlocked := target, 0, false;
    }

    /** Whether the passphrase opens what the roster holds. */
    method Opens() returns (ok: bool)
      modifies this`faults, this`unlocked
      ensures faults == old(faults) + (if ok then 0 else 1) && unlocked == ok
    {
      ok := *;
      unlocked := ok;
      if !ok { faults := faults + 1; }
    }

    method EnsureTargetExists(insecureTLS: bool) returns (ok: bool)
      modifies this`target, this`faults
      ensures old(target).Some? ==> ok && target == old(target)
      ensures target == if ok && old(target).None? then Some(Target(insecureTLS, None, None, "")) else old(target)
      ensures faults == old(faults) + (if ok then 0 else 1)
    {
      ok := *;
      if target.Some? { return true; }
      if !ok { faults := faults + 1; }
      if ok { target := Some(Target(insecureTLS, None, None, "")); }
    }

    /** A compare-and-set; setting what is held already writes nothing. */
    method WriteTLSPin(was: string, next: string, source: Source) returns (ok: bool)
      modifies this`target, this`faults
      ensures ok ==> old(target).Some? && PinOf(old(target)) == was
      ensures target ==
        if ok && was != next then Some(old(target).value.(tls := Some(Tls(next, source)))) else old(target)
      ensures old(faults) <= faults && (ok ==> faults == old(faults))
      ensures !ok ==> old(faults) < faults || old(target).None? || PinOf(old(target)) != was
    {
      ok := *;
      if !ok { faults := faults + 1; }
      ok := ok && target.Some? && PinOf(target) == was;
      if ok && was != next { target := Some(target.value.(tls := Some(Tls(next, source)))); }
    }

    method WriteSSHAuth(w: Ssh) returns (ok: bool)
      modifies this`target, this`faults
      ensures ok ==> old(target).Some?
      ensures target == if ok then Some(old(target).value.(ssh := Some(w))) else old(target)
      ensures old(faults) <= faults && (ok ==> faults == old(faults))
      ensures !ok ==> old(faults) < faults || old(target).None?
    {
      ok := *;
      if !ok { faults := faults + 1; }
      ok := ok && target.Some?;
      if ok { target := Some(target.value.(ssh := Some(w))); }
    }

    method ReplaceSSHAuth(was: string, w: Ssh) returns (ok: bool)
      modifies this`target, this`faults
      ensures ok ==> old(target).Some? && FingerprintOf(old(target)) == was != ""
      ensures target == if ok then Some(old(target).value.(ssh := Some(w))) else old(target)
      ensures old(faults) <= faults && (ok ==> faults == old(faults))
      ensures !ok ==> old(faults) < faults || was == "" || FingerprintOf(old(target)) != was
    {
      if was == "" || FingerprintOf(target) != was { return false; }
      ok := WriteSSHAuth(w);
    }
  }

  /** The node behind the address: its SSH host key, the TLS key it serves itself, and the
      one its address serves. None of them is empty. */
  datatype Facts = Facts(hostKey: string, tlsKey: string, served: string)

  datatype Install = Installed(fp: string) | NothingSent | OutcomeUnknown

  class Host {
    const facts: Facts
    var keys: set<nat> // authorized_keys
    ghost var open: bool               // a session is open
    ghost var seen: string             // the fingerprint that the last password session reported
    ghost var blind: nat               // sessions asked for without a fingerprint to pin, so far
    ghost var install: Option<Install> // what the last install ended in
    ghost var removals: nat
    ghost var faults: nat              // calls that failed though nothing ruled them out

    constructor (facts: Facts, keys: set<nat>)
      ensures this.facts == facts && this.keys == keys && !open && install == None
      ensures blind == 0 && removals == 0 && faults == 0
    {
      this.facts, this.keys, open, seen, install := facts, keys, false, "", None;
      blind, removals, faults := 0, 0, 0;
    }

    /** One more call that failed, or none. */
    method Note(ok: bool)
      modifies this`faults
      ensures faults == old(faults) + (if ok then 0 else 1)
    {
      if !ok { faults := faults + 1; }
    }

    /** A handshake that must show the given fingerprint, or any if none is given. The
        transport may fail to report the one it saw. */
    method DialWithPassword(fp: string) returns (r: Option<string>)
      modifies this`faults, this`open, this`seen, this`blind
      ensures r.Some? ==> r.value in {facts.hostKey, ""} && (fp != "" ==> fp == facts.hostKey) && seen == r.value
      ensures open == r.Some? && blind == old(blind) + (if fp == "" then 1 else 0)
      ensures old(faults) <= faults && (r.Some? && r.value != "" ==> faults == old(faults))
      ensures r.None? ==> old(faults) < faults || fp !in {"", facts.hostKey}
      ensures r == Some("") && facts.hostKey != "" ==> old(faults) < faults
    {
      var ok: bool, told: bool := *, *;
      Note(ok && told);
      ok := ok && (fp == "" || fp == facts.hostKey);
      r := if ok then Some(if told then facts.hostKey else "") else None;
      open := ok;
      if fp == "" { blind := blind + 1; }
      if ok { seen := r.value; }
    }

    /** A pinned handshake: no fingerprint is no pin to accept. */
    method DialWithKey(fp: string) returns (ok: bool)
      modifies this`faults, this`open
      ensures ok ==> fp == facts.hostKey != ""
      ensures open == ok && old(faults) <= faults && (ok ==> faults == old(faults))
      ensures !ok ==> old(faults) < faults || fp == "" || fp != facts.hostKey
    {
      ok := *;
      Note(ok);
      ok := ok && fp != "" && fp == facts.hostKey;
      open := ok;
    }

    /** Over a session of its own. */
    method InstallPubkey(key: nat, fp: string) returns (r: Install)
      requires facts.hostKey != ""
      modifies this`keys, this`faults, this`open, this`seen, this`blind, this`install
      ensures old(faults) <= faults && (r.Installed? && r.fp != "" ==> faults == old(faults))
      ensures !open && blind == old(blind) + (if fp == "" then 1 else 0) && install == Some(r)
      ensures r.NothingSent? ==> old(faults) < faults || fp !in {"", facts.hostKey}
      ensures r.OutcomeUnknown? || (r.Installed? && r.fp == "") ==> old(faults) < faults
      ensures r.Installed? ==>
          keys == old(keys) + {key} && r.fp in {facts.hostKey, ""} && (fp != "" ==> fp == facts.hostKey)
      ensures r.NothingSent? ==> keys == old(keys)
      ensures keys == old(keys) || keys == old(keys) + {key}
    {
      var session := DialWithPassword(fp);
      open := false;
      if session.None? {
        install := Some(NothingSent);
        return NothingSent;
      }
      var answered: bool, done: bool := *, *;
      if answered || done { keys := keys + {key}; }
      Note(answered);
      r := if answered then Installed(session.value) else OutcomeUnknown;
      install := Some(r);
    }

    /** The removal script: it takes out the one line and says "removed", or fails and
        changes nothing; without an answer either may have happened. */
    method RunRemoval(key: nat) returns (r: Option<(int, string)>)
      requires open
      modifies this`keys, this`removals, this`faults
      ensures removals == old(removals) + 1
      ensures r.Some? ==>
        keys == if r.value.0 == 0 && Trim(r.value.1) == "removed" then old(keys) - {key} else old(keys)
      ensures keys == old(keys) || keys == old(keys) - {key}
      ensures var removed := r.Some? && r.value.0 == 0 && Trim(r.value.1) == "removed";
        faults == old(faults) + (if removed then 0 else 1)
    {
      removals := removals + 1;
      var answered: bool, done: bool, exit: int, stdout: string := *, *, *, *;
      if answered && exit == 0 && Trim(stdout) == "removed" { done := true; } else if answered { done := false; }
      if done { keys := keys - {key}; }
      Note(answered && exit == 0 && Trim(stdout) == "removed");
      r := if answered then Some((exit, stdout)) else None;
    }

    /** The key read over a session must be the one the address serves. */
    method CapturePin() returns (r: Option<string>)
      requires open
      modifies this`faults
      ensures r.Some? ==> r.value == facts.tlsKey == facts.served
      ensures old(faults) <= faults && (r.Some? ==> faults == old(faults))
      ensures r.None? ==> old(faults) < faults || facts.tlsKey != facts.served
    {
      var captured: bool := *;
      Note(captured);
      if !captured { return None; }
      r := CheckServed(facts.tlsKey);
    }

    method CheckServed(want: string) returns (r: Option<string>)
      modifies this`faults
      ensures r.Some? ==> r.value == want == facts.served
      ensures old(faults) <= faults && (r.Some? ==> faults == old(faults))
      ensures r.None? ==> old(faults) < faults || want != facts.served
    {
      var read: bool := *;
      Note(read);
      r := if read && facts.served == want then Some(want) else None;
    }
  }

  // ---- bootstrap's refusals ----

  datatype Options = Options(insecureTLS: bool, noSSHKey: bool, sshTOFU: bool, reprovisioned: bool, fp: string,
      tlsPin: string)

  predicate CheckReprovision(o: Options, t: Option<Target>) {
    o.reprovisioned ==> !o.sshTOFU && o.fp != "" && (FingerprintOf(t) != "" || TlsOf(t).Some?)
  }

  /** The capture-trust rules; o.insecureTLS is the flag or the roster's own. */
  predicate CheckCaptureTrust(o: Options, t: Option<Target>) {
    if o.reprovisioned then CheckReprovision(o, t)
    else if o.sshTOFU && o.fp != "" then false
    else if !o.insecureTLS then !o.sshTOFU
    else if !o.noSSHKey && FingerprintOf(t) != "" then !o.sshTOFU
    else o.fp != "" || o.sshTOFU
  }

  predicate CheckKeylessState(o: Options, t: Target) {
    if o.noSSHKey then t.ssh.None? else t.ssh.Some? || t.token == ""
  }

  function SshSource(o: Options): Source {
    if o.fp != "" then SSHVerified else SSHTofu
  }

  function CaptureSource(o: Options, dialsStoredPin: bool): Source {
    if dialsStoredPin then SSHStored else SshSource(o)
  }

  // ---- what a run may do to the pins ----

  datatype Run =
    | Bootstrap(o: Options)
    | PinTLS(wanted: string, repin: bool)
    | Import(wanted: string)

  /** What a source says of the run that recorded a pin: who vouched for it. */
  ghost predicate Vouched(run: Run, before: Option<Target>, f: Facts, t: Tls) {
    match t.source
    case SSHVerified => run.Bootstrap? && run.o.fp == f.hostKey && t.pin == f.tlsKey == f.served
    case SSHTofu => run.Bootstrap? && run.o.sshTOFU && t.pin == f.tlsKey == f.served
    case SSHStored => !run.Import? && FingerprintOf(before) == f.hostKey != "" && t.pin == f.tlsKey == f.served
    case Expected => !run.Bootstrap? && t.pin == run.wanted == f.served
  }

  /** Only an operator's fingerprint for a rebuilt node, or a repin over the stored SSH
      pin, replaces a pin. */
  ghost predicate MayReplace(run: Run, before: Option<Target>, f: Facts) {
    || (run.Bootstrap? && run.o.reprovisioned && run.o.fp == f.hostKey != "")
    || (run.PinTLS? && run.repin && FingerprintOf(before) == f.hostKey != "")
  }

  /** The TLS entry stays as it is, its source included, or its pin becomes another one
      that someone vouched for. */
  ghost predicate TlsStep(run: Run, a: Option<Target>, b: Option<Target>, f: Facts) {
    TlsOf(b) == TlsOf(a)
    || (TlsOf(b).Some? && PinOf(b) != PinOf(a) && Vouched(run, a, f, TlsOf(b).value)
          && (PinOf(a) != "" ==> MayReplace(run, a, f)))
  }

  /** So with the SSH block; its source is trust on first use only if no fingerprint was
      given. */
  ghost predicate SshStep(run: Run, a: Option<Target>, b: Option<Target>, f: Facts) {
    SshOf(b) == SshOf(a)
    || (&& run.Bootstrap? && SshOf(b).Some? && SshOf(b).value.fp == f.hostKey != ""
        && SshOf(b).value.source == (if run.o.fp == f.hostKey then SSHVerified else SSHTofu)
        && (run.o.fp == f.hostKey || run.o.fp == "")
        && (FingerprintOf(a) != "" ==> run.o.reprovisioned && run.o.fp == f.hostKey))
  }

  ghost predicate PinStep(run: Run, a: Option<Target>, b: Option<Target>, f: Facts) {
    TlsStep(run, a, b, f) && SshStep(run, a, b, f) && (a.Some? ==> b.Some?)
  }

  // ---- a bootstrap's connection ----

  datatype KeyReport = NothingInstalled | RemovedAgain | MayRemain

  datatype Outcome = Refused | Failed(key: KeyReport) | Connected(newKey: bool)

  /** What became of the key a run may have installed. */
  ghost predicate KeyAccounted(r: Outcome, key: nat, before: set<nat>, after: set<nat>,
                               t: Option<Target>, removed: bool)
  {
    && after - {key} == before
    && match r
       case Connected(true) => key in after && SshOf(t).Some? && SshOf(t).value.key == key && !removed
       case Failed(MayRemain) => SshOf(t).Some? ==> SshOf(t).value.key != key
       case _ => after == before && !(SshOf(t).Some? && SshOf(t).value.key == key)
  }

  /** The node serves another key than the stored one, and the run is no reprovision. */
  predicate TlsDiffers(o: Options, f: Facts) {
    o.tlsPin != "" && !o.reprovisioned && o.tlsPin != f.tlsKey
  }

  /** What leaves an installed key in doubt: the install itself had no answer, or did not
      report the fingerprint to come back to; or, beyond the call that ended the run (none
      where the TLS pin was ruled out), another one failed, in removing the key. */
  ghost predicate LeftInSpite(install: Install, ruledOut: bool, spent: int) {
    install.OutcomeUnknown? || (install.Installed? && install.fp == "") || (if ruledOut then 0 else 1) < spent
  }

  /** No TLS pin can be captured: the address serves another key than the node itself does, or
      the stored pin differs from it. */
  predicate TlsRuledOut(o: Options, f: Facts) {
    f.tlsKey != f.served || TlsDiffers(o, f)
  }

  /** One run's TLS pin capture. */
  class TlsCapture {
    const file: RosterFile
    const host: Host
    const o: Options // with the roster's pin as tlsPin
    const tlsSource: Source
    const dialsStoredPin: bool
    var done: bool
    var pin: string
    var source: Source
    var replaced: bool
    var previous: string

    constructor (file: RosterFile, host: Host, o: Options, tlsSource: Source, dialsStoredPin: bool)
      ensures this.file == file && this.host == host && this.o == o
      ensures this.tlsSource == tlsSource && this.dialsStoredPin == dialsStoredPin
      ensures !done && !replaced
    {
      this.file, this.host, this.o, this.tlsSource, this.dialsStoredPin := file, host, o, tlsSource, dialsStoredPin;
      done, pin, source, replaced, previous := false, "", SSHTofu, false, "";
    }

    /** A different stored pin is replaced only by a reprovision, and the same one keeps
        its source. */
    method Capture() returns (ok: bool)
      requires o.tlsPin == PinOf(file.target)
      requires TlsOf(file.target).Some? ==> tlsSource == TlsOf(file.target).value.source
      requires host.facts.tlsKey != "" && host.open && file.target.Some?
      modifies this, file`target, file`faults, host`faults
      ensures old(file.faults) <= file.faults && old(host.faults) <= host.faults
      ensures ok ==> file.faults == old(file.faults) && host.faults == old(host.faults)
      ensures !ok ==> old(file.faults) < file.faults || old(host.faults) < host.faults || TlsRuledOut(o, host.facts)
      ensures TlsRuledOut(o, host.facts) ==> !ok && file.faults == old(file.faults)
      ensures !ok ==> file.target == old(file.target) && replaced == old(replaced)
      ensures ok ==>
          done && pin == host.facts.tlsKey == host.facts.served && TlsOf(file.target) == Some(Tls(pin, source))
      ensures ok ==>
          TlsOf(old(file.target)) == TlsOf(file.target)
          || (pin != PinOf(old(file.target)) && source == CaptureSource(o, dialsStoredPin)
              && (o.tlsPin != "" ==> o.reprovisioned))
      ensures ok && TlsOf(old(file.target)) == TlsOf(file.target) ==> file.target == old(file.target)
      ensures SshOf(file.target) == SshOf(old(file.target)) && (old(file.target).Some? ==> file.target.Some?)
      ensures ok ==> (replaced <==> old(replaced) || (o.tlsPin != "" && o.tlsPin != pin))
      ensures ok && replaced && !old(replaced) ==> previous == PinOf(old(file.target))
    {
      var captured := host.CapturePin();
      if captured.None? { return false; }
      var newSource := CaptureSource(o, dialsStoredPin);
      if o.tlsPin == captured.value {
        newSource := tlsSource;
      } else if o.tlsPin != "" && o.reprovisioned {
        ok := file.WriteTLSPin(o.tlsPin, captured.value, newSource);
        if !ok { return; }
        replaced, previous := true, o.tlsPin;
      } else if o.tlsPin != "" {
        return false;
      } else {
        ok := file.WriteTLSPin("", captured.value, newSource);
        if !ok { return; }
      }
      done, pin, source, ok := true, captured.value, newSource, true;
    }
  }

  class Runner {
    const file: RosterFile
    const host: Host

    constructor (file: RosterFile, host: Host)
      ensures this.file == file && this.host == host
    {
      this.file, this.host := file, host;
    }

    ghost function Faults(): nat
      reads file`faults, host`faults
    {
      file.faults + host.faults
    }

    /** The key is removed over a session; anything but a plain "removed" is reported. */
    method DropKeyOver(key: nat) returns (r: KeyReport)
      requires host.open
      modifies host`keys, host`removals, host`faults
      ensures r != NothingInstalled && old(host.faults) <= host.faults && host.removals == old(host.removals) + 1
      ensures host.keys == old(host.keys) || host.keys == old(host.keys) - {key}
      ensures if r.RemovedAgain? then key !in host.keys else old(host.faults) < host.faults
    {
      var res := host.RunRemoval(key);
      if res.None? { return MayRemain; }
      if res.value.0 != 0 || Trim(res.value.1) != "removed" { return MayRemain; }
      return RemovedAgain;
    }

    method DropKeyOverPassword(fp: string, key: nat) returns (r: KeyReport)
      modifies host`keys, host`removals, host`faults, host`open, host`seen, host`blind
      ensures r != NothingInstalled && old(host.faults) <= host.faults && host.blind == old(host.blind)
      ensures host.keys == old(host.keys) || host.keys == old(host.keys) - {key}
      ensures r.RemovedAgain? ==> key !in host.keys
      ensures r.MayRemain? ==> old(host.faults) < host.faults || fp == "" || fp != host.facts.hostKey
    {
      if fp == "" { return MayRemain; }
      var session := host.DialWithPassword(fp);
      if session.None? { return MayRemain; }
      r := DropKeyOver(key);
    }

    /** The first-run and reprovision branch. */
    method FirstRun(o: Options, reprovisionSSH: bool, existing: string, tls: TlsCapture, captureTLS: bool, key: nat)
      returns (r: Outcome)
      requires tls.file == file && tls.host == host && tls.o == o && !tls.dialsStoredPin && !tls.done
      requires o.tlsPin == PinOf(file.target)
      requires TlsOf(file.target).Some? ==> tls.tlsSource == TlsOf(file.target).value.source
      requires host.facts.tlsKey != "" && host.facts.hostKey != ""
      requires file.target.Some? && existing == FingerprintOf(file.target)
      requires reprovisionSSH <==> existing != ""
      requires existing != "" ==> o.reprovisioned
      requires o.reprovisioned ==> o.fp != ""
      requires captureTLS ==> o.fp != "" || o.sshTOFU
      requires key !in host.keys && (SshOf(file.target).Some? ==> SshOf(file.target).value.key != key)
      modifies file`target, file`faults, host, tls
      ensures !r.Refused? && (r.Connected? ==> r.newKey && FingerprintOf(file.target) == host.facts.hostKey)
      ensures r.Connected? && o.fp != "" ==> o.fp == host.facts.hostKey
      ensures !captureTLS ==> TlsOf(file.target) == TlsOf(old(file.target))
      ensures old(Faults()) <= Faults() && (r.Connected? ==> Faults() == old(Faults()))
      ensures r.Failed? ==>
        old(Faults()) < Faults() || (captureTLS && TlsRuledOut(o, host.facts)) || o.fp !in {"", host.facts.hostKey}
      ensures host.blind == old(host.blind) + if o.fp == "" then 1 else 0
      ensures host.install.Some? && (r == Failed(MayRemain) ==> LeftInSpite(host.install.value,
        captureTLS && TlsRuledOut(o, host.facts), Faults() - old(Faults())))
      ensures KeyAccounted(r, key, old(host.keys), host.keys, file.target, host.removals != old(host.removals))
      ensures PinStep(Bootstrap(o), old(file.target), file.target, host.facts)
      ensures r.Connected? && captureTLS ==>
          tls.done && TlsOf(file.target) == Some(Tls(tls.pin, tls.source))
          && tls.pin == host.facts.tlsKey == host.facts.served
    {
      var installed := host.InstallPubkey(key, o.fp);
      if installed.NothingSent? { return Failed(NothingInstalled); }
      if installed.OutcomeUnknown? { return Failed(MayRemain); }
      r := Adopt(o, reprovisionSSH, existing, tls, captureTLS, key, installed.fp);
    }

    /** The installed key is dialled, pinned to what was seen, and goes into the roster; or it
        is removed again. */
    method Adopt(o: Options, reprovisionSSH: bool, existing: string, tls: TlsCapture, captureTLS: bool, key: nat,
                 fp: string)
      returns (r: Outcome)
      requires tls.file == file && tls.host == host && tls.o == o && !tls.dialsStoredPin && !tls.done
      requires o.tlsPin == PinOf(file.target)
      requires TlsOf(file.target).Some? ==> tls.tlsSource == TlsOf(file.target).value.source
      requires host.facts.tlsKey != "" && host.facts.hostKey != ""
      requires file.target.Some? && existing == FingerprintOf(file.target)
      requires reprovisionSSH <==> existing != ""
      requires existing != "" ==> o.reprovisioned
      requires o.reprovisioned ==> o.fp != ""
      requires captureTLS ==> o.fp != "" || o.sshTOFU
      requires fp in {"", host.facts.hostKey} && o.fp in {"", host.facts.hostKey}
      requires SshOf(file.target).Some? ==> SshOf(file.target).value.key != key
      modifies file`target, file`faults, tls
      modifies host`keys, host`removals, host`faults, host`open, host`seen, host`blind
      ensures !r.Refused? && (r.Connected? ==> r.newKey && FingerprintOf(file.target) == fp == host.facts.hostKey)
      ensures !captureTLS ==> TlsOf(file.target) == TlsOf(old(file.target))
      ensures old(Faults()) <= Faults() && (r.Connected? ==> Faults() == old(Faults()))
      ensures r.Failed? ==> old(Faults()) < Faults() || (captureTLS && TlsRuledOut(o, host.facts)) || fp == ""
      ensures host.blind == old(host.blind)
      ensures r == Failed(MayRemain) ==>
        fp == "" || (if captureTLS && TlsRuledOut(o, host.facts) then 0 else 1) < Faults() - old(Faults())
      ensures host.keys == old(host.keys) || host.keys == old(host.keys) - {key}
      ensures match r
              case Connected(_) =>
                host.keys == old(host.keys) && SshOf(file.target) == Some(Ssh(fp, key, SshSource(o)))
                && host.removals == old(host.removals)
              case Failed(report) =>
                && SshOf(file.target) == SshOf(old(file.target)) && report != NothingInstalled
                && (report.RemovedAgain? ==> key !in host.keys)
              case Refused => true
      ensures PinStep(Bootstrap(o), old(file.target), file.target, host.facts)
      ensures r.Connected? && captureTLS ==>
          tls.done && TlsOf(file.target) == Some(Tls(tls.pin, tls.source))
          && tls.pin == host.facts.tlsKey == host.facts.served
    {
      var report: KeyReport;
      var dialed := host.DialWithKey(fp);
      if !dialed {
        report := DropKeyOverPassword(fp, key);
        return Failed(report);
      }
      if captureTLS {
        var captured := tls.Capture();
        if !captured {
          report := DropKeyOver(key);
          return Failed(report);
        }
      }
      var w := Ssh(fp, key, SshSource(o));
      var ok: bool;
      if reprovisionSSH { ok := file.ReplaceSSHAuth(existing, w); } else { ok := file.WriteSSHAuth(w); }
      if !ok {
        report := DropKeyOver(key);
        return Failed(report);
      }
      return Connected(true);
    }

    /** The keyless and stored-pin branches. */
    method OverSession(o: Options, existing: string, tls: TlsCapture, captureTLS: bool) returns (r: Outcome)
      requires tls.file == file && tls.host == host && tls.o == o && !tls.done
      requires o.tlsPin == PinOf(file.target)
      requires TlsOf(file.target).Some? ==> tls.tlsSource == TlsOf(file.target).value.source
      requires host.facts.tlsKey != "" && host.facts.hostKey != ""
      requires file.target.Some? && existing == FingerprintOf(file.target)
      requires if tls.dialsStoredPin then existing != "" && !o.noSSHKey else o.noSSHKey && existing == ""
      requires o.reprovisioned ==> o.fp != "" && (tls.dialsStoredPin ==> o.fp == existing)
      requires captureTLS && !tls.dialsStoredPin ==> o.fp != "" || o.sshTOFU
      modifies file`target, file`faults, tls, host`faults, host`open, host`seen, host`blind
      ensures old(Faults()) <= Faults()
      ensures r.Failed? ==>
        || old(Faults()) < Faults() || (captureTLS && TlsRuledOut(o, host.facts))
        || o.fp !in {"", host.facts.hostKey} || (!o.noSSHKey && existing != host.facts.hostKey)
      ensures host.blind == old(host.blind) + if o.noSSHKey && o.fp == "" then 1 else 0
      ensures r.Connected? && o.noSSHKey ==> host.seen == host.facts.hostKey
      ensures !r.Refused? && (r.Connected? ==> !r.newKey) && (r.Failed? ==> r.key == NothingInstalled)
      ensures PinStep(Bootstrap(o), old(file.target), file.target, host.facts)
      ensures SshOf(file.target) == SshOf(old(file.target))
      ensures r.Connected? ==> (o.noSSHKey || existing == host.facts.hostKey) && o.fp in {"", host.facts.hostKey}
      ensures !captureTLS ==> TlsOf(file.target) == TlsOf(old(file.target))
      ensures r.Connected? && captureTLS ==>
          tls.done && TlsOf(file.target) == Some(Tls(tls.pin, tls.source))
          && tls.pin == host.facts.tlsKey == host.facts.served
    {
      if o.noSSHKey {
        var session := host.DialWithPassword(o.fp);
        if session.None? || session.value == "" { return Failed(NothingInstalled); }
      } else {
        if o.fp != "" && o.fp != existing { return Failed(NothingInstalled); }
        var ok := host.DialWithKey(existing);
        if !ok { return Failed(NothingInstalled); }
      }
      if captureTLS {
        var captured := tls.Capture();
        if !captured { return Failed(NothingInstalled); }
      }
      return Connected(false);
    }

    /** The options or the roster's state rule the run out. */
    ghost predicate Refusable(given: Options, t: Option<Target>) {
      || (if given.reprovisioned then IdleReprovision(given, t) else Untrusted(given, t))
      || (t.Some? && given.noSSHKey && t.value.ssh.Some?)
      || (t.Some? && !given.noSSHKey && t.value.ssh.None? && t.value.token != "")
      || (given.tlsPin != "" && given.tlsPin != PinOf(t))
    }

    /** A reprovision names the rebuilt node's key, and there is a pin to replace. */
    ghost predicate IdleReprovision(given: Options, t: Option<Target>) {
      given.fp == "" || given.sshTOFU || (FingerprintOf(t) == "" && TlsOf(t).None?)
    }

    /** Trust on first use is given together with a fingerprint, or where nothing is to be
        captured over a first connection; or something is, and nobody vouches for it. */
    ghost predicate Untrusted(given: Options, t: Option<Target>) {
      var firstCapture := (given.insecureTLS || (t.Some? && t.value.insecureTLS))
        && (given.noSSHKey || FingerprintOf(t) == "");
      || (given.sshTOFU && (given.fp != "" || !firstCapture))
      || (firstCapture && !given.sshTOFU && given.fp == "")
    }

    /** Everything that is refused before a connection. The options come back with what
        the roster fills in; given is what the caller set. */
    method Admit(given: Options) returns (r: Option<Options>)
      modifies file
      ensures old(file.faults) <= file.faults && (r.Some? ==> file.faults == old(file.faults) && file.unlocked)
      ensures r.None? ==> old(file.faults) < file.faults || Refusable(given, old(file.target))
      ensures r.Some? ==> !Refusable(given, old(file.target))
      ensures TlsOf(file.target) == TlsOf(old(file.target)) && SshOf(file.target) == SshOf(old(file.target))
      ensures old(file.target).Some? ==> file.target == old(file.target)
      ensures r.Some? ==>
        && file.target.Some?
        && r.value == given.(
            insecureTLS := given.insecureTLS || (old(file.target).Some? && old(file.target).value.insecureTLS),
            tlsPin := PinOf(file.target))
        && CheckCaptureTrust(r.value, old(file.target)) && CheckKeylessState(r.value, file.target.value)
    {
      var insecure := given.insecureTLS || (file.target.Some? && file.target.value.insecureTLS);
      var o := given.(insecureTLS := insecure,
                      tlsPin := if given.tlsPin != "" then given.tlsPin else PinOf(file.target));
      if !CheckCaptureTrust(o, file.target) { return None; }
      var ok := file.EnsureTargetExists(insecure);
      if !ok { return None; }
      if !CheckKeylessState(o, file.target.value) { return None; }
      var proven := file.Opens();
      if !proven { return None; }
      if o.tlsPin != "" && o.tlsPin != PinOf(file.target) { return None; }
      return Some(o.(tlsPin := PinOf(file.target)));
    }

    /** A run captures the TLS pin of a target that is not verified by a CA, and a
        reprovision the pin of any target that has one. */
    ghost predicate CapturesTLS(given: Options, t: Option<Target>) {
      || given.insecureTLS || (t.Some? && t.value.insecureTLS)
      || (given.reprovisioned && PinOf(t) != "")
    }

    /** What the node shows rules a connection out: the fingerprint that was given, the stored
        SSH pin that is dialled, or the TLS pin that is to be captured. */
    ghost predicate RuledOut(given: Options, t: Option<Target>, f: Facts) {
      || given.fp !in {"", f.hostKey}
      || (!given.noSSHKey && !given.reprovisioned && FingerprintOf(t) !in {"", f.hostKey})
      || (CapturesTLS(given, t) && TlsRuledOut(given.(tlsPin := PinOf(t)), f))
    }

    /** Run up to the token phase. The key is the one this run generates, if it does. */
    method Connect(given: Options, key: nat) returns (r: Outcome)
      requires host.facts.tlsKey != "" && host.facts.hostKey != ""
      requires key !in host.keys && (SshOf(file.target).Some? ==> SshOf(file.target).value.key != key)
      modifies file, host
      ensures KeyAccounted(r, key, old(host.keys), host.keys, file.target, host.removals != old(host.removals))
      ensures PinStep(Bootstrap(given), old(file.target), file.target, host.facts)
      ensures r.Refused? ==>
          TlsOf(file.target) == TlsOf(old(file.target)) && SshOf(file.target) == SshOf(old(file.target))
          && host.removals == old(host.removals)
      ensures old(Faults()) <= Faults()
      ensures r.Refused? ==> old(Faults()) < Faults() || Refusable(given, old(file.target))
      ensures Refusable(given, old(file.target)) ==> r.Refused?
      ensures r.Failed? ==> old(Faults()) < Faults() || RuledOut(given, old(file.target), host.facts)
      ensures r == Failed(MayRemain) ==> host.install.Some? && LeftInSpite(host.install.value,
        CapturesTLS(given, old(file.target)) && TlsRuledOut(given.(tlsPin := PinOf(old(file.target))), host.facts),
        Faults() - old(Faults()))
      ensures !r.Refused? ==> file.unlocked
      ensures host.blind <= old(host.blind) + 1
      ensures host.blind != old(host.blind) ==>
        given.fp == "" && (given.noSSHKey || FingerprintOf(old(file.target)) == "")
      ensures r.Connected? && given.noSSHKey ==> host.seen == host.facts.hostKey
      ensures r.Connected? && CapturesTLS(given, old(file.target)) ==>
        PinOf(file.target) == host.facts.tlsKey == host.facts.served
      ensures !CapturesTLS(given, old(file.target)) ==> TlsOf(file.target) == TlsOf(old(file.target))
      ensures r.Connected? && given.fp != "" ==> given.fp == host.facts.hostKey
      ensures r.Connected? ==>
        && FingerprintOf(file.target) == (if given.noSSHKey then "" else host.facts.hostKey)
        && (r.newKey <==> !given.noSSHKey && FingerprintOf(old(file.target)) != host.facts.hostKey)
    {
      var admitted := Admit(given);
      if admitted.None? { return Refused; }
      r := ConnectAdmitted(admitted.value, key);
    }

    ghost predicate Captures(o: Options) {
      o.insecureTLS || (o.reprovisioned && o.tlsPin != "")
    }

    /** The connection, o being the options with what the roster fills in. */
    method ConnectAdmitted(o: Options, key: nat) returns (r: Outcome)
      requires host.facts.tlsKey != "" && host.facts.hostKey != ""
      requires key !in host.keys && (SshOf(file.target).Some? ==> SshOf(file.target).value.key != key)
      requires file.target.Some? && o.tlsPin == PinOf(file.target)
      requires CheckCaptureTrust(o, file.target) && CheckKeylessState(o, file.target.value)
      modifies file`target, file`faults, host
      ensures KeyAccounted(r, key, old(host.keys), host.keys, file.target, host.removals != old(host.removals))
      ensures PinStep(Bootstrap(o), old(file.target), file.target, host.facts)
      ensures old(Faults()) <= Faults() && !r.Refused?
      ensures r.Failed? ==>
        || old(Faults()) < Faults() || (Captures(o) && TlsRuledOut(o, host.facts))
        || o.fp !in {"", host.facts.hostKey}
        || (!o.noSSHKey && !o.reprovisioned && FingerprintOf(old(file.target)) !in {"", host.facts.hostKey})
      ensures r == Failed(MayRemain) ==> host.install.Some?
      ensures r == Failed(MayRemain) ==>
        LeftInSpite(host.install.value, Captures(o) && TlsRuledOut(o, host.facts), Faults() - old(Faults()))
      ensures host.blind <= old(host.blind) + 1
      ensures host.blind != old(host.blind) ==> o.fp == "" && (o.noSSHKey || FingerprintOf(old(file.target)) == "")
      ensures r.Connected? && o.noSSHKey ==> host.seen == host.facts.hostKey
      ensures r.Connected? && Captures(o) ==> PinOf(file.target) == host.facts.tlsKey == host.facts.served
      ensures !Captures(o) ==> TlsOf(file.target) == TlsOf(old(file.target))
      ensures r.Connected? && o.fp != "" ==> o.fp == host.facts.hostKey
      ensures r.Connected? ==>
        && FingerprintOf(file.target) == (if o.noSSHKey then "" else host.facts.hostKey)
        && (r.newKey <==> !o.noSSHKey && FingerprintOf(old(file.target)) != host.facts.hostKey)
    {
      var existing := FingerprintOf(file.target);
      var reprovisionSSH := o.reprovisioned && existing != "" && o.fp != existing;
      var tlsSource := if TlsOf(file.target).Some? then TlsOf(file.target).value.source else SSHTofu;
      var tls := new TlsCapture(file, host, o, tlsSource, existing != "" && !reprovisionSSH);
      var captureTLS := o.insecureTLS || (o.reprovisioned && o.tlsPin != "");
      if o.noSSHKey || (existing != "" && !reprovisionSSH) {
        r := OverSession(o, existing, tls, captureTLS);
      } else {
        r := FirstRun(o, reprovisionSSH, existing, tls, captureTLS, key);
      }
    }
  }

  // ---- pin-tls and import-token ----

  datatype PinTLSOptions = PinTLSOptions(wanted: string, repin: bool, printOnly: bool)

  /** Which flags fit the target's mode. */
  predicate CheckPinTLSMode(o: PinTLSOptions, t: Target) {
    var keyful := FingerprintOf(Some(t)) != "";
    if !t.insecureTLS then o.wanted != "" && !o.repin
    else if keyful then o.wanted == ""
    else !o.repin && o.wanted != ""
  }

  /** The operator's pin is for a target with no stored SSH pin to capture over, or one that
      a CA verifies, and must be given there; a repin is for a stored SSH pin's session. */
  ghost predicate Misfit(o: PinTLSOptions, t: Target) {
    var overSession := t.insecureTLS && FingerprintOf(Some(t)) != "";
    (overSession <==> o.wanted != "") || (o.repin && !overSession)
  }

  /** What the node shows rules the pin out: the operator's is not the one its address serves;
      or the stored SSH pin is not its key, or it serves another TLS key than its address. */
  ghost predicate Unservable(wanted: string, t: Target, f: Facts) {
    if wanted != "" then wanted != f.served else FingerprintOf(Some(t)) != f.hostKey || f.tlsKey != f.served
  }

  datatype PinTLSResult = PinTLSResult(ok: bool, pin: string, source: Source, previous: string, written: bool)

  class PinTLSRun {
    const file: RosterFile
    const host: Host

    constructor (file: RosterFile, host: Host)
      ensures this.file == file && this.host == host
    {
      this.file, this.host := file, host;
    }

    /** The pin to write: captured over the stored SSH pin's session, or the operator's,
        and in either case the one the address serves. */
    method Find(o: PinTLSOptions, t: Target) returns (r: Option<Tls>)
      requires CheckPinTLSMode(o, t) && host.facts.tlsKey != ""
      modifies file`faults, file`unlocked, host`faults, host`open
      ensures old(file.faults) <= file.faults && old(host.faults) <= host.faults
      ensures r.None? ==>
        || old(file.faults) < file.faults || old(host.faults) < host.faults
        || Unservable(o.wanted, t, host.facts)
      ensures r.Some? ==> (o.wanted != "" ==> r.value.pin == o.wanted) && (o.wanted == "" ==> file.unlocked)
      ensures r.Some? ==> file.faults == old(file.faults) && host.faults == old(host.faults)
      ensures r.Some? ==> r.value.source == (if o.wanted == "" then SSHStored else Expected)
      ensures r.Some? ==> r.value.pin != "" && Vouched(PinTLS(o.wanted, o.repin), Some(t), host.facts, r.value)
    {
      var pin: Option<string>;
      if t.insecureTLS && FingerprintOf(Some(t)) != "" {
        var decrypts := file.Opens();
        if !decrypts { return None; }
        var ok := host.DialWithKey(FingerprintOf(Some(t)));
        if !ok { return None; }
        pin := host.CapturePin();
        return if pin.Some? then Some(Tls(pin.value, SSHStored)) else None;
      }
      pin := host.CheckServed(o.wanted);
      return if pin.Some? then Some(Tls(pin.value, Expected)) else None;
    }

    method Go(o: PinTLSOptions) returns (r: PinTLSResult)
      requires host.facts.tlsKey != ""
      modifies file, host`faults, host`open
      ensures r.pin in {"", host.facts.served} && (r.ok && o.wanted != "" ==> r.pin == o.wanted)
      ensures r.ok && o.wanted == "" ==> file.unlocked
      ensures r.ok ==> file.faults == old(file.faults) && host.faults == old(host.faults)
      ensures r.written ==> r.source == (if o.wanted == "" then SSHStored else Expected)
      ensures !r.ok ==>
        || old(file.faults) < file.faults || old(host.faults) < host.faults
        || old(file.target).None? || Misfit(o, old(file.target).value)
        || Unservable(o.wanted, old(file.target).value, host.facts)
        || (PinOf(old(file.target)) !in {"", r.pin} && !o.repin)
      ensures PinStep(PinTLS(o.wanted, o.repin), old(file.target), file.target, host.facts)
      ensures r.ok ==> old(file.target).Some? && !Misfit(o, old(file.target).value)
      ensures r.ok ==> r.pin == host.facts.served && r.previous == PinOf(old(file.target))
      ensures r.written <==> file.target != old(file.target)
      ensures r.written ==>
          r.ok && !o.printOnly && TlsOf(file.target) == Some(Tls(r.pin, r.source))
          && r.previous == PinOf(old(file.target))
      ensures r.ok && !r.written && !o.printOnly ==> TlsOf(file.target) == Some(Tls(r.pin, r.source))
      ensures r.ok && PinOf(old(file.target)) !in {"", r.pin} ==> o.repin
    {
      r := PinTLSResult(false, "", SSHStored, PinOf(file.target), false);
      if file.target.None? || !CheckPinTLSMode(o, file.target.value) { return; }
      var found := Find(o, file.target.value);
      if found.None? { return; }
      r := r.(pin := found.value.pin, source := found.value.source);
      if r.previous == r.pin {
        return r.(ok := true, source := TlsOf(file.target).value.source);
      }
      if r.previous != "" && !o.repin { return; }
      if o.printOnly { return r.(ok := true); }
      var ok := file.WriteTLSPin(r.previous, r.pin, r.source);
      r := r.(ok := ok, written := ok);
    }
  }

  /** import-token's TLS rule; insecure is the flag or the roster's own. */
  predicate CheckImportTLS(insecure: bool, wanted: string, t: Option<Target>) {
    && !(wanted != "" && PinOf(t) != "" && wanted != PinOf(t))
    && !(insecure && PinOf(t) == "" && wanted == "")
  }

  class ImportRun {
    const file: RosterFile
    const host: Host

    constructor (file: RosterFile, host: Host)
      ensures this.file == file && this.host == host
    {
      this.file, this.host := file, host;
    }

    /** The pin is written only for a target that holds none, and only after the token was
        validated through it. ok is whether the import got as far as its token. */
    method Go(insecureTLS: bool, wanted: string) returns (ok: bool)
      modifies file, host`faults
      ensures !ok ==>
        || old(file.faults) < file.faults || old(host.faults) < host.faults
        || (PinOf(old(file.target)) !in {"", wanted} && wanted != "")
        || (wanted != "" && wanted != host.facts.served)
        || (PinOf(old(file.target)) !in {"", host.facts.served})
        || (PinOf(old(file.target)) == "" && wanted == ""
            && (insecureTLS || (old(file.target).Some? && old(file.target).value.insecureTLS)))
      ensures ok ==> file.unlocked && file.faults == old(file.faults) && host.faults == old(host.faults)
      ensures PinStep(Import(wanted), old(file.target), file.target, host.facts)
      ensures SshOf(file.target) == SshOf(old(file.target))
      ensures ok && wanted != "" ==> PinOf(file.target) == wanted == host.facts.served
      ensures ok && (insecureTLS || (old(file.target).Some? && old(file.target).value.insecureTLS)) ==>
          PinOf(file.target) == host.facts.served != ""
    {
      var insecure := insecureTLS || (file.target.Some? && file.target.value.insecureTLS);
      if !CheckImportTLS(insecure, wanted, file.target) { return false; }
      var writePin := wanted != "" && PinOf(file.target) == "";
      var pin := if writePin then wanted else PinOf(file.target);
      var admitted := file.Opens(); // the token's own checks, and the passphrase's
      if !admitted { return false; }
      if pin != "" {
        var served := host.CheckServed(pin);
        if served.None? { return false; }
      }
      var holdsGrants: bool := *;
      host.Note(holdsGrants);
      if !holdsGrants { return false; }
      ok := file.EnsureTargetExists(insecure);
      if ok && writePin { ok := file.WriteTLSPin("", wanted, Expected); }
    }
  }

  // ---- any sequence of runs ----

  /** The target after each run, and what each run met. */
  ghost predicate Chain(ts: seq<Option<Target>>, runs: seq<Run>, fs: seq<Facts>) {
    && |ts| == |runs| + 1 && |fs| == |runs|
    && forall i :: 0 <= i < |runs| ==> PinStep(runs[i], ts[i], ts[i + 1], fs[i])
  }

  /** Every TLS entry was there from the start, or was recorded by one run, which vouched
      for it, and has not changed since. */
  lemma {:induction false} RecordedBy(ts: seq<Option<Target>>, runs: seq<Run>, fs: seq<Facts>) returns (i: nat)
    requires Chain(ts, runs, fs)
    ensures i <= |runs| && forall j :: i <= j <= |runs| ==> TlsOf(ts[j]) == TlsOf(ts[|runs|])
    ensures i > 0 ==>
      && TlsOf(ts[i]).Some? && PinOf(ts[i]) != PinOf(ts[i - 1])
      && Vouched(runs[i - 1], ts[i - 1], fs[i - 1], TlsOf(ts[i]).value)
      && (PinOf(ts[i - 1]) != "" ==> MayReplace(runs[i - 1], ts[i - 1], fs[i - 1]))
    decreases |runs|
  {
    var n := |runs|;
    if n == 0 { return 0; }
    assert PinStep(runs[n - 1], ts[n - 1], ts[n], fs[n - 1]);
    if TlsOf(ts[n]) != TlsOf(ts[n - 1]) { return n; }
    i := RecordedBy(ts[..n], runs[..n - 1], fs[..n - 1]);
  }

  /** A pin that says trust on first use was so from the start, or a run given --ssh-tofu
      recorded it. */
  lemma TofuOnlyWhenAsked(ts: seq<Option<Target>>, runs: seq<Run>, fs: seq<Facts>)
    requires Chain(ts, runs, fs) && TlsOf(ts[|runs|]).Some? && TlsOf(ts[|runs|]).value.source == SSHTofu
    ensures TlsOf(ts[0]) == TlsOf(ts[|runs|])
         || exists i :: 0 <= i < |runs| && runs[i].Bootstrap? && runs[i].o.sshTOFU
              && TlsOf(ts[i + 1]) == TlsOf(ts[|runs|])
  {
    var i := RecordedBy(ts, runs, fs);
    if i > 0 { assert TlsOf(ts[i - 1 + 1]) == TlsOf(ts[|runs|]); }
  }

  /** The recorded source stays with the pin: while the pin is the same, so is the source. */
  lemma {:induction false} SourceStaysWithPin(ts: seq<Option<Target>>, runs: seq<Run>, fs: seq<Facts>, i: nat, j: nat)
    requires Chain(ts, runs, fs) && i <= j <= |runs|
    requires forall k :: i <= k <= j ==> PinOf(ts[k]) == PinOf(ts[i])
    ensures TlsOf(ts[j]) == TlsOf(ts[i])
    decreases j
  {
    if i < j {
      SourceStaysWithPin(ts, runs, fs, i, j - 1);
      assert PinStep(runs[j - 1], ts[j - 1], ts[j], fs[j - 1]);
      assert PinOf(ts[j]) == PinOf(ts[i]) && PinOf(ts[j - 1]) == PinOf(ts[i]);
    }
  }

  predicate AsksToReplace(run: Run) {
    (run.Bootstrap? && run.o.reprovisioned && run.o.fp != "") || (run.PinTLS? && run.repin)
  }

  /** Runs that do not ask to replace a pin keep both pins, sources included. */
  lemma {:induction false} NeverReplacedUnasked(ts: seq<Option<Target>>, runs: seq<Run>, fs: seq<Facts>)
    requires Chain(ts, runs, fs) && forall i :: 0 <= i < |runs| ==> !AsksToReplace(runs[i])
    ensures PinOf(ts[0]) != "" ==> TlsOf(ts[|runs|]) == TlsOf(ts[0])
    ensures FingerprintOf(ts[0]) != "" ==> SshOf(ts[|runs|]) == SshOf(ts[0])
    decreases |runs|
  {
    var n := |runs|;
    if n > 0 {
      NeverReplacedUnasked(ts[..n], runs[..n - 1], fs[..n - 1]);
      assert PinStep(runs[n - 1], ts[n - 1], ts[n], fs[n - 1]) && !AsksToReplace(runs[n - 1]);
    }
  }
}
