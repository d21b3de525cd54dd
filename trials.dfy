// The free-trial guard: the record list of trial_store.py (kept in a JSON
// file, here a class holding the list) and the `trial_start` handler of
// routes/trial_routes.py. The HMAC-SHA256 of `_h` is treated as injective
// and modelled by keeping its input; times are seconds of aware UTC
// datetimes.

module TrialStore {
  import opened Common

  const SecondsPerDay: int := 86400

  /** `_h(s)`: the empty string for empty input, otherwise a digest that
    * only equal inputs share. */
  datatype Hash = Blank | Mac(input: string)

  function H(s: string): (h: Hash)
    ensures h == Blank <==> s == ""
  {
    if s == "" then Blank else Mac(s)
  }

  /** Only equal inputs share a hash. */
  lemma HInjective(s: string, t: string)
    ensures H(s) == H(t) <==> s == t
  {
  }

  /** One entry of the trial file. */
  datatype Record = Record(userId: Option<int>, emailHash: Hash, ipHash: Hash, fpHash: Hash, createdAt: int, note: string)

  /** `(x or "")`. */
  function OrEmpty(x: Option<string>): string
  {
    if x.Some? then x.value else ""
  }

  /** The hashes `trial_register` and `trial_exists_recent` compute. */
  function EmailHash(email: Option<string>): Hash
  {
    H(Lower(OrEmpty(email)))
  }

  /** The record `trial_register` appends. */
  function RecordOf(userId: Option<int>, email: Option<string>, ip: Option<string>, fp: Option<string>, now: int, note: string)
    : (r: Record)
    ensures r.createdAt == now && r.userId == userId && r.note == note
    ensures r.emailHash == EmailHash(email) && r.ipHash == H(OrEmpty(ip)) && r.fpHash == H(OrEmpty(fp))
  {
    Record(userId, EmailHash(email), H(OrEmpty(ip)), H(OrEmpty(fp)), now, note)
  }

  /** The test inside the loop of `trial_exists_recent`: recent enough, and
    * the same e-mail, IP or fingerprint hash. */
  predicate Matches(r: Record, email: Option<string>, ip: Option<string>, fp: Option<string>, cutoff: int)
  {
    r.createdAt >= cutoff
    && (r.emailHash == EmailHash(email) || r.ipHash == H(OrEmpty(ip)) || r.fpHash == H(OrEmpty(fp)))
  }

  /** `now - timedelta(days=days)`. */
  function Cutoff(now: int, days: int): int
  {
    now - days * SecondsPerDay
  }

  /** E-mail addresses are compared without regard to case. */
  lemma EmailCaseIgnored(r: Record, e1: string, e2: string, ip: Option<string>, fp: Option<string>, cutoff: int)
    requires Lower(e1) == Lower(e2)
    ensures Matches(r, Some(e1), ip, fp, cutoff) <==> Matches(r, Some(e2), ip, fp, cutoff)
  {
  }

  /** Two attempts without a fingerprint (or without an IP) inside the
    * window match each other, whoever makes them. */
  lemma BlankFingerprintsCollide(u: Option<int>, e1: Option<string>, ip1: Option<string>, now: int, note: string,
                                 e2: Option<string>, ip2: Option<string>, cutoff: int)
    requires cutoff <= now
    ensures Matches(RecordOf(u, e1, ip1, Some(""), now, note), e2, ip2, None, cutoff)
    ensures Matches(RecordOf(u, e1, None, Some("x"), now, note), e2, Some(""), Some("y"), cutoff)
  {
  }

  /** The trial file. */
  class TrialFile {
    var rows: seq<Record>

    constructor (rows0: seq<Record>)
      ensures rows == rows0
    {
      rows := rows0;
    }

    /** `trial_register`: exactly one record is appended, the earlier ones
      * are kept. */
    method Register(userId: Option<int>, email: Option<string>, ip: Option<string>, fp: Option<string>, now: int, note: string)
      modifies this
      ensures rows == old(rows) + [RecordOf(userId, email, ip, fp, now, note)]
    {
      rows := rows + [RecordOf(userId, email, ip, fp, now, note)];
    }

    /** `trial_exists_recent`. */
    method ExistsRecent(email: Option<string>, ip: Option<string>, fp: Option<string>, days: int, now: int)
      returns (found: bool)
      ensures found <==> exists i :: 0 <= i < |rows| && Matches(rows[i], email, ip, fp, Cutoff(now, days))
    {
      var cutoff := Cutoff(now, days);
      var i := 0;
      while i < |rows|
        invariant 0 <= i <= |rows|
        invariant forall j :: 0 <= j < i ==> !Matches(rows[j], email, ip, fp, cutoff)
      {
        if rows[i].createdAt >= cutoff
          && (rows[i].emailHash == EmailHash(email) || rows[i].ipHash == H(OrEmpty(ip)) || rows[i].fpHash == H(OrEmpty(fp))) {
          return true;
        }
        i := i + 1;
      }
      found := false;
    }
  }

  /** After a registration, the same e-mail (in any case) is found for as
    * long as the window reaches back to it. */
  lemma RegisteredIsRecent(rows: seq<Record>, userId: Option<int>, email: string, ip: Option<string>, fp: Option<string>,
                           now: int, note: string, email2: string, ip2: Option<string>, fp2: Option<string>, days: int, later: int)
    requires Lower(email2) == Lower(email)
    requires now <= later <= now + days * SecondsPerDay
    ensures var after := rows + [RecordOf(userId, Some(email), ip, fp, now, note)];
      exists i :: 0 <= i < |after| && Matches(after[i], Some(email2), ip2, fp2, Cutoff(later, days))
  {
    var after := rows + [RecordOf(userId, Some(email), ip, fp, now, note)];
    assert Matches(after[|rows|], Some(email2), ip2, fp2, Cutoff(later, days));
  }
}

module TrialRoutes {
  import opened Common
  import Db
  import TrialStore

  /** `_get_ip`: the first entry of a non-empty X-Forwarded-For, stripped;
    * else the remote address; else "0.0.0.0". */
  function ClientIp(forwardedFor: string, remoteAddr: Option<string>): (ip: string)
    ensures forwardedFor != "" ==> ip == Strip(Split(forwardedFor, ',')[0])
    ensures forwardedFor != "" ==> ',' !in ip
    ensures forwardedFor == "" && remoteAddr.Some? && remoteAddr.value != "" ==> ip == remoteAddr.value
    ensures forwardedFor == "" && (remoteAddr.None? || remoteAddr.value == "") ==> ip == "0.0.0.0"
  {
    if forwardedFor != "" then
      var first := Split(forwardedFor, ',')[0];
      StripIsInside(first);
      Strip(first)
    else if remoteAddr.Some? && remoteAddr.value != "" then remoteAddr.value
    else "0.0.0.0"
  }

  lemma StripIsInside(s: string)
    requires ',' !in s
    ensures ',' !in Strip(s)
  {
    var t := Strip(s);
    assert forall k :: 0 <= k < |t| ==> t[k] in s;
  }

  /** The proxy's own address, after a comma, never becomes the client IP. */
  lemma FirstForwardedEntry(client: string, proxies: string)
    requires ',' !in client
    ensures ClientIp(client + [','] + proxies, None) == Strip(client)
  {
    SplitPrefix(client, proxies, ',');
  }

  /** `request.args.get("fp") or request.cookies.get("fp_token") or ""`. */
  function Fingerprint(arg: Option<string>, cookie: Option<string>): (fp: string)
    ensures arg.Some? && arg.value != "" ==> fp == arg.value
    ensures (arg.None? || arg.value == "") && cookie.Some? && cookie.value != "" ==> fp == cookie.value
    ensures (arg.None? || arg.value == "") && (cookie.None? || cookie.value == "") ==> fp == ""
  {
    if arg.Some? && arg.value != "" then arg.value
    else if cookie.Some? && cookie.value != "" then cookie.value
    else ""
  }

  const TrialDays: int := 14
  const WindowDays: int := 90

  /** The subscription a new trial opens: plan and billing "trial", five
    * vehicles, active for fourteen days from now. */
  function TrialSubscription(user: int, now: int): (s: Db.Subscription)
    ensures s.plan == "trial" && s.billing == "trial" && s.vehicles == 5 && s.status == "active"
    ensures s.startedAt == Db.Instant(now, true)
    ensures s.periodEnd == Some(Db.Instant(now + TrialDays * TrialStore.SecondsPerDay, true))
  {
    Db.Subscription(user, "trial", "trial", 5, "active", Db.Instant(now, true),
                    Some(Db.Instant(now + TrialDays * TrialStore.SecondsPerDay, true)), "internal", "trial")
  }

  datatype Outcome = BackToLanding | Thanks

  /** `trial_start`: a match in the last 90 days sends the user back with
    * nothing created; otherwise one subscription and one trial record are
    * added. */
  method TrialStart(db: Db.Store, file: TrialStore.TrialFile, userId: int, email: Option<string>,
                    ip: string, fp: string, now: int) returns (outcome: Outcome)
    modifies db`subscriptions, file
    ensures (outcome == BackToLanding) <==>
      exists i :: 0 <= i < |old(file.rows)| && TrialStore.Matches(old(file.rows)[i], email, Some(ip), Some(fp), TrialStore.Cutoff(now, WindowDays))
    ensures outcome == BackToLanding ==> db.subscriptions == old(db.subscriptions) && file.rows == old(file.rows)
    ensures outcome == Thanks ==>
      db.subscriptions == old(db.subscriptions)[Db.NextId(old(db.subscriptions).Keys) := Db.Stored(TrialSubscription(userId, now))]
      && file.rows == old(file.rows) + [TrialStore.RecordOf(Some(userId), email, Some(ip), Some(fp), now, "trial 14d")]
  {
    var recent := file.ExistsRecent(email, Some(ip), Some(fp), WindowDays, now);
    if recent {
      return BackToLanding;
    }
    var id := db.CreateSubscription(TrialSubscription(userId, now));
    file.Register(Some(userId), email, Some(ip), Some(fp), now, "trial 14d");
    outcome := Thanks;
  }

  /** A second trial for the same e-mail within the 90 days is refused. */
  lemma NoSecondTrial(rows: seq<TrialStore.Record>, userId: int, email: string, ip: string, fp: string, now: int,
                      email2: string, ip2: string, fp2: string, later: int)
    requires Lower(email2) == Lower(email)
    requires now <= later <= now + WindowDays * TrialStore.SecondsPerDay
    ensures var after := rows + [TrialStore.RecordOf(Some(userId), Some(email), Some(ip), Some(fp), now, "trial 14d")];
      exists i :: 0 <= i < |after| && TrialStore.Matches(after[i], Some(email2), Some(ip2), Some(fp2), TrialStore.Cutoff(later, WindowDays))
  {
    TrialStore.RegisteredIsRecent(rows, Some(userId), email, Some(ip), Some(fp), now, "trial 14d", email2, Some(ip2), Some(fp2), WindowDays, later);
  }
}
