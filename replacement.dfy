/** The daily replacement run (automation/daily_beverage_invoices.py,
    `_read_replacement_state`, `_write_replacement_state` and
    `run_beverage_replacement`): at most once a day, five randomly sampled
    tax files are each replaced by a synthesized beverage invoice written
    under the name that encodes the original id, payment method and total. */
module Replacement {
  import opened Wrappers
  import opened PyStr
  import opened TotalCodec
  import opened Dates
  import opened TaxFilename
  import opened BeverageSynthesis
  import opened TaxFiles
  import opened Classifier

  const MaxReplacementsPerDay: int := 5

  // ---------------------------------------------------------------------
  // The quota state file

  /** `beverage_replacement_state.json`: missing, not a JSON object, or an
      object with an optional `date` string and an optional `count`. */
  datatype StateFile = Absent | Unreadable | Stored(date: Option<string>, count: Option<int>)

  /** The dictionary `_read_replacement_state` returns. */
  datatype QuotaState = QuotaState(date: Option<string>, count: int)

  /** `_read_replacement_state()`: no date and a count of 0 unless the file
      holds an object; a missing `count` reads as 0. */
  function ReadReplacementState(f: StateFile): (r: QuotaState)
    ensures !f.Stored? ==> r == QuotaState(None, 0)
    ensures f.Stored? ==> r.date == f.date && (f.count.None? ==> r.count == 0)
    ensures f.Stored? && f.count.Some? ==> r.count == f.count.value
  {
    match f
    case Stored(date, count) => QuotaState(date, count.GetOr(0))
    case _ => QuotaState(None, 0)
  }

  /** `_write_replacement_state(today, count)`. */
  function WriteReplacementState(today: string, count: int): StateFile {
    Stored(Some(today), Some(count))
  }

  /** Reading back what was written gives the same day and count. */
  lemma StateRoundTrip(today: string, count: int)
    ensures ReadReplacementState(WriteReplacementState(today, count)) == QuotaState(Some(today), count)
  {
  }

  /** The guard at the start of the run. */
  predicate QuotaExhausted(s: QuotaState, today: string) {
    s.date == Some(today) && s.count >= MaxReplacementsPerDay
  }

  // ---------------------------------------------------------------------
  // What the run reads and writes

  /** The files the run touches: the tax directory (None when it does not
      exist), the state file, and the log files of the project root. */
  datatype Disk = Disk(taxDir: Option<map<string, TaxFile>>, state: StateFile, logs: map<string, string>)

  /** One entry of the `replaced` list. */
  datatype Replaced = Replaced(oldName: string, invoiceId: string, paymentMethod: string,
                               total: int, lastItemPrice: int)

  /** The dictionary the run returns: refused by the quota, refused for want
      of files, or done. */
  datatype Outcome =
    | QuotaReached
    | TooFewFiles(count: nat)
    | Done(replaced: seq<Replaced>, logLines: seq<string>, logFile: string)

  // The fixed texts of the log.
  const LogTitle: string := "LOG THAY THẾ HÓA ĐƠN BIA/RƯỢU/COKE - "
  const LogNote: string := "Tổng bia/rượu (thuế 10%) = đúng tổng ban đầu (thuế 8%). Chỉ điều chỉnh 1 món cuối."
  const SkipText: string := ". Bỏ qua (không parse được): "
  const ReplacedText: string := ". Hóa đơn bị thay thế: "
  const DetailText: string := "     → HĐ "
  const TotalText: string := ", tổng "
  const LastText: string := "đ. Món cuối: "
  const LogPrefix: string := "beverage_replacement_log_"

  /** The three lines the log starts with. */
  function Header(now: Date): seq<string>
    requires ValidDate(now)
  {
    [LogTitle + DisplayDate(now), LogNote, ""]
  }

  function LogName(now: Date): string
    requires ValidDate(now)
  {
    LogPrefix + IsoDate(now) + ".txt"
  }

  function SkipLine(i: nat, name: string): string {
    "  " + Digits(i) + SkipText + name
  }

  function ReplacedLine(i: nat, name: string): string {
    "  " + Digits(i) + ReplacedText + name
  }

  function DetailLine(n: TaxName, lastPrice: int): string {
    DetailText + n.invoiceId + ", " + UpperAscii(n.paymentMethod) + TotalText + Thousands(n.total)
    + LastText + Thousands(lastPrice) + "đ"
  }

  // ---------------------------------------------------------------------
  // The loop over the sampled files

  /** What the loop has built so far. */
  datatype Progress = Progress(dir: map<string, TaxFile>, logLines: seq<string>, replaced: seq<Replaced>)

  /** The directory once `file` is saved as `out` and the original `name`
      is unlinked when it differs and still exists. */
  function Rewrite(dir: map<string, TaxFile>, name: string, out: string, file: TaxFile): map<string, TaxFile> {
    var written := dir[out := file];
    if out != name && name in written then written - {name} else written
  }

  /** One loop iteration, for the `i`-th sampled file `name`: an unparsable
      name is only logged; otherwise the beverage invoice is written under
      the encoded name, the original is deleted when that name differs and
      it still exists, and two log lines and an entry are added. */
  function Step(p: Progress, i: nat, name: string, d: Draws, dateStr: string): Progress
    requires ValidDraws(d)
  {
    var parsed := ParseTaxFilename(name);
    if parsed.None? then p.(logLines := p.logLines + [SkipLine(i, name)])
    else
      var n := parsed.value;
      var inv := BeverageInvoice(n.invoiceId, n.paymentMethod, n.total, dateStr, d);
      var out := OutputName(n);
      var last := LastLine(n.total, d);
      Progress(Rewrite(p.dir, name, out, Generated(inv)),
               p.logLines + [ReplacedLine(i, name), DetailLine(n, last.price)],
               p.replaced + [Replaced(name, n.invoiceId, n.paymentMethod, n.total, last.price)])
  }

  /** The loop over `names`, numbered from 1, each with its own draws. */
  function Steps(p: Progress, names: seq<string>, draws: seq<Draws>, dateStr: string): Progress
    requires |draws| == |names| && forall k :: 0 <= k < |draws| ==> ValidDraws(draws[k])
  {
    if names == [] then p
    else
      var n := |names|;
      Step(Steps(p, names[..n - 1], draws[..n - 1], dateStr), n, names[n - 1], draws[n - 1], dateStr)
  }

  /** `random.sample(all_files, 5)`, given the sampled positions. */
  predicate ValidSample(sample: seq<nat>, size: nat) {
    |sample| == MaxReplacementsPerDay
    && (forall k :: 0 <= k < |sample| ==> sample[k] < size)
    && (forall a, b :: 0 <= a < b < |sample| ==> sample[a] != sample[b])
  }

  function Picked(cands: seq<string>, sample: seq<nat>): (r: seq<string>)
    requires forall k :: 0 <= k < |sample| ==> sample[k] < |cands|
    ensures |r| == |sample|
  {
    seq(|sample|, k requires 0 <= k < |sample| => cands[sample[k]])
  }

  /** The draws for five syntheses. */
  predicate ValidDrawList(draws: seq<Draws>) {
    |draws| == MaxReplacementsPerDay && forall k :: 0 <= k < |draws| ==> ValidDraws(draws[k])
  }

  /** The whole run on a given disk, as one value. */
  function Run(disk: Disk, listing: seq<string>, now: Date, sample: seq<nat>, draws: seq<Draws>): (Outcome, Disk)
    requires ValidDate(now) && ValidDrawList(draws)
    requires |Matching(listing, true)| >= MaxReplacementsPerDay ==> ValidSample(sample, |Matching(listing, true)|)
  {
    if QuotaExhausted(ReadReplacementState(disk.state), IsoDate(now)) then (QuotaReached, disk)
    else
      var dir := disk.taxDir.GetOr(map[]);
      var cands := Matching(listing, true);
      if |cands| < MaxReplacementsPerDay then (TooFewFiles(|cands|), disk.(taxDir := Some(dir)))
      else
        var p := Steps(Progress(dir, Header(now), []), Picked(cands, sample), draws, DisplayDate(now));
        (Done(p.replaced, p.logLines, LogName(now)),
         Disk(Some(p.dir), WriteReplacementState(IsoDate(now), MaxReplacementsPerDay),
              disk.logs[LogName(now) := Join(p.logLines, "\n")]))
  }

  /** `run_beverage_replacement()`. The clock reading `now`, the sampled
      positions and the draws of each synthesis are given; `listing` is the
      order in which `glob` enumerates the tax directory (empty when the
      directory is created by the run). */
  method RunBeverageReplacement(disk: Disk, listing: seq<string>, now: Date, sample: seq<nat>, draws: seq<Draws>)
      returns (outcome: Outcome, after: Disk)
    requires ValidDate(now) && ValidDrawList(draws)
    requires Enumerates(listing, disk.taxDir.GetOr(map[]))
    requires |Matching(listing, true)| >= MaxReplacementsPerDay ==> ValidSample(sample, |Matching(listing, true)|)
    ensures (outcome, after) == Run(disk, listing, now, sample, draws)
  {
    var today := IsoDate(now);
    var state := ReadReplacementState(disk.state);
    if state.date == Some(today) && state.count >= MaxReplacementsPerDay {
      return QuotaReached, disk;
    }
    var dir := if disk.taxDir.None? then map[] else disk.taxDir.value;
    var cands := Matching(listing, true);
    if |cands| < MaxReplacementsPerDay {
      return TooFewFiles(|cands|), disk.(taxDir := Some(dir));
    }
    var toReplace := Picked(cands, sample);
    var dateStr := DisplayDate(now);
    var p := ReplaceAll(Progress(dir, Header(now), []), toReplace, draws, dateStr, now);
    var logFile := LogName(now);
    outcome := Done(p.replaced, p.logLines, logFile);
    after := Disk(Some(p.dir), WriteReplacementState(today, MaxReplacementsPerDay),
                  disk.logs[logFile := Join(p.logLines, "\n")]);
  }

  /** The five sampled files are distinct non-Grab `.xlsx` files of the directory. */
  lemma SampledFiles(dir: map<string, TaxFile>, listing: seq<string>, sample: seq<nat>)
    requires Enumerates(listing, dir) && ValidSample(sample, |Matching(listing, true)|)
    ensures var picked := Picked(Matching(listing, true), sample);
      |picked| == MaxReplacementsPerDay
      && (forall k :: 0 <= k < |picked| ==> picked[k] in dir && IsXlsx(picked[k]) && !IsGrab(picked[k]))
      && (forall a, b :: 0 <= a < b < |picked| ==> picked[a] != picked[b])
  {
    var cands := Matching(listing, true);
    var picked := Picked(cands, sample);
    MatchingDistinct(listing, true);
    forall k | 0 <= k < |picked| ensures picked[k] in dir && IsXlsx(picked[k]) && !IsGrab(picked[k]) {
      MatchingMembers(listing, true, picked[k]);
    }
  }

  /** The `for i, filepath in enumerate(to_replace, 1)` loop. */
  method ReplaceAll(start: Progress, toReplace: seq<string>, draws: seq<Draws>, dateStr: string, now: Date)
      returns (p: Progress)
    requires |draws| == |toReplace| && forall k :: 0 <= k < |draws| ==> ValidDraws(draws[k])
    requires ValidDate(now)
    ensures p == Steps(start, toReplace, draws, dateStr)
  {
    p := start;
    var i := 0;
    while i < |toReplace|
      invariant 0 <= i <= |toReplace|
      invariant p == Steps(start, toReplace[..i], draws[..i], dateStr)
    {
      StepsSnoc(start, toReplace, draws, dateStr, i);
      var dir, logLines, replaced := ReplaceOne(p.dir, p.logLines, p.replaced, i + 1, toReplace[i], draws[i], dateStr, now);
      p := Progress(dir, logLines, replaced);
      i := i + 1;
    }
    assert toReplace[..i] == toReplace && draws[..i] == draws;
  }

  /** The body of the loop, for the `i`-th sampled file. */
  method ReplaceOne(dir: map<string, TaxFile>, logLines: seq<string>, replaced: seq<Replaced>,
                    i: nat, name: string, d: Draws, dateStr: string, now: Date)
      returns (dir': map<string, TaxFile>, logLines': seq<string>, replaced': seq<Replaced>)
    requires ValidDraws(d) && ValidDate(now)
    ensures Progress(dir', logLines', replaced') == Step(Progress(dir, logLines, replaced), i, name, d, dateStr)
  {
    var parsed := ParseTaxFilename(name);
    if parsed.None? {
      return dir, logLines + [SkipLine(i, name)], replaced;
    }
    var n := parsed.value;
    var inv := BuildBeverageInvoice(n.invoiceId, n.paymentMethod, n.total, Some(dateStr), now, d);
    var out := OutputName(n);
    dir' := dir[out := Generated(inv)];
    if out != name && name in dir' {
      dir' := dir' - {name};
    }
    var last := inv.items[|inv.items| - 1];
    assert last == LastLine(n.total, d);
    logLines' := logLines + [ReplacedLine(i, name), DetailLine(n, last.price)];
    replaced' := replaced + [Replaced(name, n.invoiceId, n.paymentMethod, n.total, last.price)];
  }

  lemma StepsSnoc(p: Progress, names: seq<string>, draws: seq<Draws>, dateStr: string, k: int)
    requires |draws| == |names| && forall j :: 0 <= j < |draws| ==> ValidDraws(draws[j])
    requires 0 <= k < |names|
    ensures Steps(p, names[..k + 1], draws[..k + 1], dateStr)
         == Step(Steps(p, names[..k], draws[..k], dateStr), k + 1, names[k], draws[k], dateStr)
  {
    assert names[..k + 1][..k] == names[..k];
    assert draws[..k + 1][..k] == draws[..k];
  }

  // ---------------------------------------------------------------------
  // The quota

  /** A run that gets past the quota and finds enough files leaves today's
      quota exhausted, so a second run on the same day is refused and changes
      nothing. */
  lemma SecondRunRefused(disk: Disk, listing: seq<string>, now: Date, sample: seq<nat>, draws: seq<Draws>,
                         listing2: seq<string>, sample2: seq<nat>, draws2: seq<Draws>)
    requires ValidDate(now) && ValidDrawList(draws) && ValidDrawList(draws2)
    requires |Matching(listing, true)| >= MaxReplacementsPerDay ==> ValidSample(sample, |Matching(listing, true)|)
    requires |Matching(listing2, true)| >= MaxReplacementsPerDay ==> ValidSample(sample2, |Matching(listing2, true)|)
    requires Run(disk, listing, now, sample, draws).0.Done?
    ensures var after := Run(disk, listing, now, sample, draws).1;
      Run(after, listing2, now, sample2, draws2) == (QuotaReached, after)
  {
    var after := Run(disk, listing, now, sample, draws).1;
    StateRoundTrip(IsoDate(now), MaxReplacementsPerDay);
    assert after.state == WriteReplacementState(IsoDate(now), MaxReplacementsPerDay);
  }

  /** The quota written on one day does not block another day. */
  lemma OtherDayNotBlocked(written: Date, now: Date)
    requires ValidDate(written) && ValidDate(now) && written != now
    ensures !QuotaExhausted(ReadReplacementState(WriteReplacementState(IsoDate(written), MaxReplacementsPerDay)),
                            IsoDate(now))
  {
    if IsoDate(written) == IsoDate(now) {
      IsoDateInjective(written, now);
    }
  }

  /** A refused run changes nothing but the creation of a missing directory. */
  lemma RefusalsKeepState(disk: Disk, listing: seq<string>, now: Date, sample: seq<nat>, draws: seq<Draws>)
    requires ValidDate(now) && ValidDrawList(draws)
    requires |Matching(listing, true)| >= MaxReplacementsPerDay ==> ValidSample(sample, |Matching(listing, true)|)
    ensures var (outcome, after) := Run(disk, listing, now, sample, draws);
      (outcome.QuotaReached? <==> QuotaExhausted(ReadReplacementState(disk.state), IsoDate(now)))
      && (outcome.QuotaReached? ==> after == disk)
      && (outcome.TooFewFiles? ==> outcome.count == |Matching(listing, true)| < MaxReplacementsPerDay
                                   && after == disk.(taxDir := Some(disk.taxDir.GetOr(map[]))))
      && (outcome.Done? ==> after.state == Stored(Some(IsoDate(now)), Some(MaxReplacementsPerDay)))
      && (!QuotaExhausted(ReadReplacementState(disk.state), IsoDate(now)) ==>
            (outcome.TooFewFiles? <==> |Matching(listing, true)| < MaxReplacementsPerDay)
            && (outcome.Done? <==> |Matching(listing, true)| >= MaxReplacementsPerDay))
  {
  }

  // ---------------------------------------------------------------------
  // The log and the replaced list

  /** What an entry of the replaced list records. */
  predicate FaithfulEntry(r: Replaced, names: seq<string>) {
    r.oldName in names
    && ParseTaxFilename(r.oldName) == Some(TaxName(r.invoiceId, r.paymentMethod, r.total))
    && (r.paymentMethod == "atm" || r.paymentMethod == "transfer")
    && r.lastItemPrice >= 1
  }

  /** The names among `names` that `parse_tax_filename` decodes, in order:
      the files the loop replaces. */
  function Decodable(names: seq<string>): (r: seq<string>)
    ensures |r| <= |names|
  {
    if names == [] then []
    else
      var last := names[|names| - 1];
      Decodable(names[..|names| - 1]) + if ParseTaxFilename(last).Some? then [last] else []
  }

  /** A name is decodable among `names` iff it is one of them and decodes. */
  lemma {:induction false} DecodableMembers(names: seq<string>, x: string)
    ensures x in Decodable(names) <==> x in names && ParseTaxFilename(x).Some?
    decreases |names|
  {
    if names != [] {
      var init := names[..|names| - 1];
      DecodableMembers(init, x);
      assert names == init + [names[|names| - 1]];
    }
  }

  /** The files the entries of a replaced list name, in order. */
  function OldNames(rs: seq<Replaced>): (r: seq<string>)
    ensures |r| == |rs| && forall k :: 0 <= k < |rs| ==> r[k] == rs[k].oldName
  {
    seq(|rs|, k requires 0 <= k < |rs| => rs[k].oldName)
  }

  /** One iteration: one log line for a skip, two and an entry for a
      replacement, earlier lines and entries kept. */
  lemma StepLog(p: Progress, i: nat, name: string, d: Draws, dateStr: string)
    requires ValidDraws(d)
    ensures |Step(p, i, name, d, dateStr).replaced|
            == |p.replaced| + if ParseTaxFilename(name).Some? then 1 else 0
    ensures |Step(p, i, name, d, dateStr).logLines|
            == |p.logLines| + 1 + if ParseTaxFilename(name).Some? then 1 else 0
    ensures Step(p, i, name, d, dateStr).logLines[..|p.logLines|] == p.logLines
    ensures Step(p, i, name, d, dateStr).replaced[..|p.replaced|] == p.replaced
    ensures ParseTaxFilename(name).Some? ==>
              FaithfulEntry(Step(p, i, name, d, dateStr).replaced[|p.replaced|], [name])
  {
    var parsed := ParseTaxFilename(name);
    var q := Step(p, i, name, d, dateStr);
    if parsed.Some? {
      ItemsShape(parsed.value.total, d);
      assert q.replaced[|p.replaced|].oldName == name;
    } else {
      assert q.logLines == p.logLines + [SkipLine(i, name)];
    }
  }

  /** A skipped file adds only its skip line; a replaced one adds the two
      lines naming it and an entry holding the decoded id, payment method
      and total and the price of the synthesized invoice's last line. */
  lemma StepEntry(p: Progress, i: nat, name: string, d: Draws, dateStr: string)
    requires ValidDraws(d)
    ensures var q := Step(p, i, name, d, dateStr);
      var parsed := ParseTaxFilename(name);
      (parsed.None? ==> q.replaced == p.replaced && q.logLines == p.logLines + [SkipLine(i, name)])
      && (parsed.Some? ==>
            var n := parsed.value;
            var items := BeverageInvoice(n.invoiceId, n.paymentMethod, n.total, dateStr, d).items;
            var price := items[|items| - 1].price;
            q.replaced == p.replaced + [Replaced(name, n.invoiceId, n.paymentMethod, n.total, price)]
            && q.logLines == p.logLines + [ReplacedLine(i, name), DetailLine(n, price)])
  {
  }

  /** Each sampled file adds one log line when skipped and two when
      replaced; earlier lines and entries are kept. */
  lemma {:induction false} StepsLog(p: Progress, names: seq<string>, draws: seq<Draws>, dateStr: string)
    requires |draws| == |names| && forall k :: 0 <= k < |draws| ==> ValidDraws(draws[k])
    ensures var q := Steps(p, names, draws, dateStr);
      |p.replaced| <= |q.replaced| <= |p.replaced| + |names|
      && |q.logLines| == |p.logLines| + |names| + (|q.replaced| - |p.replaced|)
      && q.logLines[..|p.logLines|] == p.logLines
      && q.replaced[..|p.replaced|] == p.replaced
    ensures |Steps(p, names, draws, dateStr).replaced| == |p.replaced| + |Decodable(names)|
    ensures OldNames(Steps(p, names, draws, dateStr).replaced) == OldNames(p.replaced) + Decodable(names)
    decreases |names|
  {
    if names != [] {
      var n := |names|;
      StepsLog(p, names[..n - 1], draws[..n - 1], dateStr);
      var q0 := Steps(p, names[..n - 1], draws[..n - 1], dateStr);
      StepLog(q0, n, names[n - 1], draws[n - 1], dateStr);
      var q := Steps(p, names, draws, dateStr);
      PrefixOfPrefix(q.logLines, q0.logLines, p.logLines);
      PrefixOfPrefix(q.replaced, q0.replaced, p.replaced);
    }
    assert OldNames(Steps(p, names, draws, dateStr).replaced) == OldNames(p.replaced) + Decodable(names) by {
      StepsNames(p, names, draws, dateStr);
    }
  }

  /** The entries the loop adds name exactly the decodable sampled files,
      in the order they were sampled. */
  lemma {:induction false} StepsNames(p: Progress, names: seq<string>, draws: seq<Draws>, dateStr: string)
    requires |draws| == |names| && forall k :: 0 <= k < |draws| ==> ValidDraws(draws[k])
    ensures OldNames(Steps(p, names, draws, dateStr).replaced) == OldNames(p.replaced) + Decodable(names)
    decreases |names|
  {
    if names == [] {
      assert OldNames(p.replaced) + [] == OldNames(p.replaced);
    } else {
      var n := |names|;
      StepsNames(p, names[..n - 1], draws[..n - 1], dateStr);
      StepsLast(p, names, draws, dateStr);
      NamesExtended(Steps(p, names[..n - 1], draws[..n - 1], dateStr).replaced,
                    Steps(p, names, draws, dateStr).replaced,
                    names[n - 1], ParseTaxFilename(names[n - 1]).Some?,
                    OldNames(p.replaced), Decodable(names[..n - 1]));
    }
  }

  /** A list extended by the entry of `last` exactly when `last` decodes
      names what it named before, then `last` exactly when it decodes. */
  lemma NamesExtended(a: seq<Replaced>, b: seq<Replaced>, last: string, decodes: bool,
                      before: seq<string>, done: seq<string>)
    requires |b| == |a| + if decodes then 1 else 0
    requires b[..|a|] == a
    requires decodes ==> FaithfulEntry(b[|a|], [last])
    requires OldNames(a) == before + done
    ensures OldNames(b) == before + (done + if decodes then [last] else [])
  {
    var extra := if decodes then [last] else [];
    forall k | 0 <= k < |b|
      ensures OldNames(b)[k] == (before + (done + extra))[k]
    {
      if k < |a| {
        assert b[k] == b[..|a|][k];
      }
    }
  }

  /** Every entry the loop adds names a sampled file, the triple its name
      decodes to, and a positive last-line price. */
  lemma {:induction false} StepsEntry(p: Progress, names: seq<string>, draws: seq<Draws>, dateStr: string, k: nat)
    requires |draws| == |names| && forall j :: 0 <= j < |draws| ==> ValidDraws(draws[j])
    requires names != [] && |p.replaced| <= k < |Steps(p, names, draws, dateStr).replaced|
    ensures FaithfulEntry(Steps(p, names, draws, dateStr).replaced[k], names)
    decreases |names|
  {
    var n := |names|;
    StepsLast(p, names, draws, dateStr);
    StepsLog(p, names[..n - 1], draws[..n - 1], dateStr);
    LastAndInit(names);
    if k < |Steps(p, names[..n - 1], draws[..n - 1], dateStr).replaced| {
      StepsEntry(p, names[..n - 1], draws[..n - 1], dateStr, k);
      PrefixIndex(Steps(p, names[..n - 1], draws[..n - 1], dateStr).replaced,
                  Steps(p, names, draws, dateStr).replaced, k);
      EntryWidened(Steps(p, names, draws, dateStr).replaced[k], names[..n - 1], names);
    } else {
      EntryWidened(Steps(p, names, draws, dateStr).replaced[k], [names[n - 1]], names);
    }
  }

  /** The last iteration of the loop, in terms of the iterations before it. */
  lemma StepsLast(p: Progress, names: seq<string>, draws: seq<Draws>, dateStr: string)
    requires |draws| == |names| && forall j :: 0 <= j < |draws| ==> ValidDraws(draws[j])
    requires names != []
    ensures |Steps(p, names, draws, dateStr).replaced|
            == |Steps(p, names[..|names| - 1], draws[..|names| - 1], dateStr).replaced|
               + if ParseTaxFilename(names[|names| - 1]).Some? then 1 else 0
    ensures Steps(p, names, draws, dateStr).replaced[..|Steps(p, names[..|names| - 1], draws[..|names| - 1], dateStr).replaced|]
            == Steps(p, names[..|names| - 1], draws[..|names| - 1], dateStr).replaced
    ensures ParseTaxFilename(names[|names| - 1]).Some? ==>
              FaithfulEntry(Steps(p, names, draws, dateStr).replaced[|Steps(p, names[..|names| - 1], draws[..|names| - 1], dateStr).replaced|],
                            [names[|names| - 1]])
  {
    var n := |names|;
    StepLog(Steps(p, names[..n - 1], draws[..n - 1], dateStr), n, names[n - 1], draws[n - 1], dateStr);
  }

  /** An entry faithful to some names stays faithful to more names. */
  lemma EntryWidened(r: Replaced, some: seq<string>, names: seq<string>)
    requires FaithfulEntry(r, some)
    requires forall x :: x in some ==> x in names
    ensures FaithfulEntry(r, names)
  {
  }

  lemma LastAndInit(names: seq<string>)
    requires names != []
    ensures forall x :: x in names[..|names| - 1] ==> x in names
    ensures forall x :: x in [names[|names| - 1]] ==> x in names
  {
  }

  lemma PrefixIndex<T>(a: seq<T>, b: seq<T>, k: nat)
    requires k < |a| <= |b| && b[..|a|] == a
    ensures b[k] == a[k]
  {
    assert b[k] == b[..|a|][k];
  }

  lemma PrefixOfPrefix<T>(a: seq<T>, b: seq<T>, c: seq<T>)
    requires |c| <= |b| <= |a| && a[..|b|] == b && b[..|c|] == c
    ensures a[..|c|] == c
  {
    assert a[..|c|] == a[..|b|][..|c|];
  }

  /** The log of a completed run: the header, then one line per skipped and
      two per replaced file; at most five entries, each faithful to its file;
      the log file holds the lines joined by newlines and no other log file
      changes. */
  lemma RunLog(disk: Disk, listing: seq<string>, now: Date, sample: seq<nat>, draws: seq<Draws>)
    requires ValidDate(now) && ValidDrawList(draws)
    requires |Matching(listing, true)| >= MaxReplacementsPerDay ==> ValidSample(sample, |Matching(listing, true)|)
    requires Run(disk, listing, now, sample, draws).0.Done?
    ensures var (outcome, after) := Run(disk, listing, now, sample, draws);
      |outcome.replaced| <= MaxReplacementsPerDay
      && |outcome.logLines| == 3 + MaxReplacementsPerDay + |outcome.replaced|
      && outcome.logLines[..3] == Header(now)
      && outcome.logFile == LogName(now)
      && after.logs == disk.logs[LogName(now) := Join(outcome.logLines, "\n")]
      && (forall k :: 0 <= k < |outcome.replaced| ==>
            FaithfulEntry(outcome.replaced[k], Picked(Matching(listing, true), sample)))
      && |outcome.replaced| == |Decodable(Picked(Matching(listing, true), sample))|
      && OldNames(outcome.replaced) == Decodable(Picked(Matching(listing, true), sample))
      && forall x :: x in Picked(Matching(listing, true), sample) ==>
           (x in OldNames(outcome.replaced) <==> ParseTaxFilename(x).Some?)
  {
    var start := Progress(disk.taxDir.GetOr(map[]), Header(now), []);
    var names := Picked(Matching(listing, true), sample);
    StepsLog(start, names, draws, DisplayDate(now));
    assert OldNames(start.replaced) + Decodable(names) == Decodable(names);
    forall x | x in names ensures x in Decodable(names) <==> ParseTaxFilename(x).Some? {
      DecodableMembers(names, x);
    }
    var q := Steps(start, names, draws, DisplayDate(now));
    forall k | 0 <= k < |q.replaced| ensures FaithfulEntry(q.replaced[k], names) {
      StepsEntry(start, names, draws, DisplayDate(now), k);
    }
  }

  // ---------------------------------------------------------------------
  // The tax directory

  /** One replacement writes the synthesized invoice under the encoded name,
      where the classifier recognises it; the original is gone when the names
      differ; no other file changes. A skipped file changes nothing. */
  lemma StepFiles(p: Progress, i: nat, name: string, d: Draws, dateStr: string, f: string)
    requires ValidDraws(d)
    ensures var q := Step(p, i, name, d, dateStr);
      var parsed := ParseTaxFilename(name);
      (parsed.None? ==> q.dir == p.dir)
      && (parsed.Some? ==>
            var n := parsed.value;
            var out := OutputName(n);
            out in q.dir && q.dir[out] == Generated(BeverageInvoice(n.invoiceId, n.paymentMethod, n.total, dateStr, d))
            && Classify(q.dir[out]).isBeverage
            && (out != name ==> name !in q.dir)
            && (f != out && f != name ==> (f in q.dir <==> f in p.dir) && (f in p.dir ==> q.dir[f] == p.dir[f])))
  {
    var parsed := ParseTaxFilename(name);
    var q := Step(p, i, name, d, dateStr);
    if parsed.Some? {
      var n := parsed.value;
      var file := Generated(BeverageInvoice(n.invoiceId, n.paymentMethod, n.total, dateStr, d));
      assert q.dir == Rewrite(p.dir, name, OutputName(n), file);
      RewriteFrame(p.dir, name, OutputName(n), file, f);
      GeneratedIsBeverageOnly(n.invoiceId, n.paymentMethod, n.total, dateStr, d);
    }
  }

  lemma RewriteFrame(dir: map<string, TaxFile>, name: string, out: string, file: TaxFile, f: string)
    ensures var r := Rewrite(dir, name, out, file);
      out in r && r[out] == file
      && (out != name ==> name !in r)
      && (f != out && f != name ==> (f in r <==> f in dir) && (f in dir ==> r[f] == dir[f]))
  {
  }

  /** A file that is not sampled and is not the encoded name of a sampled
      file is left as it was. */
  lemma {:induction false} StepsFrame(p: Progress, names: seq<string>, draws: seq<Draws>, dateStr: string, f: string)
    requires |draws| == |names| && forall k :: 0 <= k < |draws| ==> ValidDraws(draws[k])
    requires f !in names
    requires forall k :: 0 <= k < |names| && ParseTaxFilename(names[k]).Some? ==>
               OutputName(ParseTaxFilename(names[k]).value) != f
    ensures f in Steps(p, names, draws, dateStr).dir <==> f in p.dir
    ensures f in p.dir ==> Steps(p, names, draws, dateStr).dir[f] == p.dir[f]
    decreases |names|
  {
    if names != [] {
      var n := |names|;
      LastAndInit(names);
      assert forall k :: 0 <= k < n - 1 ==> names[..n - 1][k] == names[k];
      StepsFrame(p, names[..n - 1], draws[..n - 1], dateStr, f);
      StepKeeps(Steps(p, names[..n - 1], draws[..n - 1], dateStr), n, names[n - 1], draws[n - 1], dateStr, f);
    }
  }

  /** One iteration leaves alone a file that is neither its name nor the
      name that file is written under. */
  lemma StepKeeps(p: Progress, i: nat, name: string, d: Draws, dateStr: string, f: string)
    requires ValidDraws(d) && f != name
    requires ParseTaxFilename(name).Some? ==> OutputName(ParseTaxFilename(name).value) != f
    ensures f in Step(p, i, name, d, dateStr).dir <==> f in p.dir
    ensures f in p.dir ==> Step(p, i, name, d, dateStr).dir[f] == p.dir[f]
  {
    StepFiles(p, i, name, d, dateStr, f);
  }
}
