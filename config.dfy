/**
 * The monitor's settings, read once from the process environment at start-up.
 * The environment is a map from variable names to raw strings; Python's
 * `int()` on a raw string and the host's node name are given as inputs.
 */
module Config {
  import opened Wrappers
  import opened Text

  /** Python's `os.getenv(key, default)`. */
  function Getenv(env: map<string, string>, key: string, default: string): string {
    if key in env then env[key] else default
  }

  /** Non-empty, with no whitespace at either end: what `strip()` leaves of a non-blank value. */
  predicate Trimmed(e: string) {
    e != [] && !IsSpace(e[0]) && !IsSpace(e[|e| - 1])
  }

  /** An entry of the recipient list: trimmed and free of commas. */
  predicate WellFormedRecipient(e: string) {
    Trimmed(e) && ',' !in e
  }

  /** What one piece contributes: itself stripped, or nothing when it is blank. */
  function Entry(piece: string): (entry: seq<string>)
    ensures |entry| <= 1
    ensures forall e :: e in entry ==> Trimmed(e)
    ensures ',' !in piece ==> forall e :: e in entry ==> ',' !in e
  {
    var e := Strip(piece);
    if e == [] then [] else [e]
  }

  /** `[s.strip() for s in pieces if s.strip()]`. */
  function NonBlank(pieces: seq<string>): (entries: seq<string>)
    ensures |entries| <= |pieces|
    ensures forall e :: e in entries ==> Trimmed(e)
    ensures (forall p :: p in pieces ==> ',' !in p) ==> forall e :: e in entries ==> WellFormedRecipient(e)
  {
    if pieces == [] then []
    else
      assert forall p :: p in pieces[1..] ==> p in pieces;
      assert pieces[0] in pieces;
      Entry(pieces[0]) + NonBlank(pieces[1..])
  }

  /** The first piece contributes its entry ahead of the rest. */
  lemma NonBlankCons(x: string, rest: seq<string>)
    ensures NonBlank([x] + rest) == Entry(x) + NonBlank(rest)
  {
    assert ([x] + rest)[1..] == rest;
  }

  lemma {:induction false} NonBlankAppend(xs: seq<string>, ys: seq<string>)
    ensures NonBlank(xs + ys) == NonBlank(xs) + NonBlank(ys)
    decreases |xs|
  {
    if xs != [] {
      var head, rest := Entry(xs[0]), xs[1..];
      assert (xs + ys)[0] == xs[0];
      assert (xs + ys)[1..] == rest + ys;
      NonBlankAppend(rest, ys);
      assert NonBlank(xs + ys) == head + (NonBlank(rest) + NonBlank(ys));
      assert head + (NonBlank(rest) + NonBlank(ys)) == (head + NonBlank(rest)) + NonBlank(ys);
    } else {
      assert xs + ys == ys;
    }
  }

  /**
   * `SMTP_TO`: the raw value split on commas, each piece stripped, blank
   * pieces dropped. Every entry is well formed.
   */
  function Recipients(raw: string): (to: seq<string>)
    ensures forall e :: e in to ==> WellFormedRecipient(e)
    ensures |to| <= |Split(raw, ',')|
    ensures ',' !in raw ==> to == if Strip(raw) == [] then [] else [Strip(raw)]
  {
    NonBlank(Split(raw, ','))
  }

  /**
   * The list of `a + "," + b` is the list of `a` followed by the list of `b`:
   * the order of the pieces is kept and nothing is de-duplicated.
   */
  lemma RecipientsAround(a: string, b: string)
    ensures Recipients(a + "," + b) == Recipients(a) + Recipients(b)
  {
    assert a + "," + b == a + [','] + b;
    SplitAround(a, b, ',');
    NonBlankAppend(Split(a, ','), Split(b, ','));
  }

  /** A semicolon does not separate entries: it stays inside the single entry. */
  lemma SemicolonStaysInside(raw: string)
    requires ',' !in raw && ';' in raw
    ensures |Recipients(raw)| == 1 && ';' in Recipients(raw)[0]
  {
    var k :| 0 <= k < |raw| && raw[k] == ';';
    StripKeeps(raw, k);
  }

  /** The first piece of a split is where a character put in front lands. */
  lemma SplitCons(c: char, raw: string)
    requires c != ','
    ensures var parts := Split(raw, ',');
      Split([c] + raw, ',') == [[c] + parts[0]] + parts[1..]
  {
    if ',' in raw {
      var i := IndexOf(raw, ',');
      var head, tail := raw[..i], raw[i + 1..];
      assert raw == head + [','] + tail;
      assert [c] + raw == ([c] + head) + [','] + tail;
      assert ',' !in [c] + head;
      SplitAround([c] + head, tail, ',');
      SplitAround(head, tail, ',');
      assert Split([c] + head, ',') == [[c] + head];
      assert Split(head, ',') == [head];
      assert Split(raw, ',') == [head] + Split(tail, ',');
    } else {
      assert ',' !in [c] + raw;
    }
  }

  /** Whitespace in front of the value is ignored. */
  lemma RecipientsSkipLeadingSpace(c: char, raw: string)
    requires IsSpace(c)
    ensures Recipients([c] + raw) == Recipients(raw)
  {
    var parts := Split(raw, ',');
    SplitCons(c, raw);
    NonBlankCons([c] + parts[0], parts[1..]);
    NonBlankCons(parts[0], parts[1..]);
    assert parts == [parts[0]] + parts[1..];
    StripSpaceCons(c, parts[0]);
  }

  /** A well-formed entry read on its own is a list of itself. */
  lemma RecipientsOfOne(e: string)
    requires WellFormedRecipient(e)
    ensures Recipients(e) == [e]
  {
    StripTrimmed(e);
    assert NonBlank([e]) == [Strip(e)] + NonBlank([]);
  }

  /** An empty value gives no recipients. */
  lemma RecipientsOfEmpty()
    ensures Recipients("") == []
  {
    assert Split("", ',') == [""];
    assert NonBlank([""]) == [] + NonBlank([]);
  }

  /** Joining with ", " is joining with "," a piece that starts with a space. */
  lemma JoinCommaSpace(head: string, tail: string)
    ensures head + ", " + tail == head + "," + ([' '] + tail)
  {
  }

  /**
   * Reading back what the email's To header holds (`", ".join(SMTP_TO)`)
   * gives the same list: the recipient list is a fixed point of its parser.
   */
  lemma {:induction false} RecipientsOfToHeader(to: seq<string>)
    requires forall e :: e in to ==> WellFormedRecipient(e)
    ensures Recipients(Join(to, ", ")) == to
    decreases |to|
  {
    if |to| == 0 {
      RecipientsOfEmpty();
    } else if |to| == 1 {
      assert to[0] in to;
      RecipientsOfOne(to[0]);
    } else {
      var head, rest := to[0], to[1..];
      assert head in to;
      assert forall e :: e in rest ==> e in to;
      var tail := Join(rest, ", ");
      calc {
        Recipients(Join(to, ", "));
        { JoinCommaSpace(head, tail); }
        Recipients(head + "," + ([' '] + tail));
        { RecipientsAround(head, [' '] + tail); }
        Recipients(head) + Recipients([' '] + tail);
        { RecipientsOfOne(head); RecipientsSkipLeadingSpace(' ', tail); }
        [head] + Recipients(tail);
        { RecipientsOfToHeader(rest); }
        [head] + rest;
      }
      assert to == [head] + rest;
    }
  }

  /** `a` and `b` are equal up to the case of ASCII letters. */
  predicate SameIgnoringCase(a: string, b: string) {
    |a| == |b| && forall i :: 0 <= i < |a| ==> LowerChar(a[i]) == LowerChar(b[i])
  }

  /** Against a word with no capitals, lower-casing matches exactly when the case is ignored. */
  lemma LowerMatches(raw: string, word: string)
    requires forall i :: 0 <= i < |word| ==> !('A' <= word[i] <= 'Z')
    ensures Lower(raw) == word <==> SameIgnoringCase(raw, word)
  {
    if SameIgnoringCase(raw, word) {
      assert forall i :: 0 <= i < |raw| ==> Lower(raw)[i] == word[i];
    }
  }

  /**
   * A boolean switch: the lower-cased value is "1", "true" or "yes". So it is
   * on for exactly "1" and for "true" or "yes" in any mix of upper and lower case.
   */
  function ParseFlag(raw: string): (on: bool)
    ensures on <==> raw == "1" || SameIgnoringCase(raw, "true") || SameIgnoringCase(raw, "yes")
  {
    LowerMatches(raw, "1");
    LowerMatches(raw, "true");
    LowerMatches(raw, "yes");
    assert SameIgnoringCase(raw, "1") ==> raw[0] == '1';
    Lower(raw) in {"1", "true", "yes"}
  }

  /** Values equal up to case set a switch alike. */
  lemma FlagSameIgnoringCase(a: string, b: string)
    requires SameIgnoringCase(a, b)
    ensures ParseFlag(a) == ParseFlag(b)
  {
    assert forall i :: 0 <= i < |a| ==> Lower(a)[i] == Lower(b)[i];
  }

  /** Upper- and mixed-case spellings turn a switch on. */
  lemma FlagCaseVariants()
    ensures ParseFlag("TRUE") && ParseFlag("Yes") && ParseFlag("tRuE")
  {
    assert SameIgnoringCase("TRUE", "true");
    assert SameIgnoringCase("Yes", "yes");
    assert SameIgnoringCase("tRuE", "true");
  }

  /** Flags are case-insensitive. */
  lemma FlagIgnoresCase(raw: string)
    ensures ParseFlag(Lower(raw)) == ParseFlag(raw)
  {
    LowerIdempotent(raw);
  }

  /** Flag values are not stripped: a value holding any whitespace is off. */
  lemma FlagRejectsWhitespace(raw: string, k: nat)
    requires k < |raw| && IsSpace(raw[k])
    ensures !ParseFlag(raw)
  {
    assert Lower(raw)[k] == raw[k];
  }

  /** The default recipient list is the one default address. */
  lemma DefaultRecipient()
    ensures Recipients("admin@example.com") == ["admin@example.com"]
  {
    var s := "admin@example.com";
    assert ',' !in s by {
      assert forall k :: 0 <= k < |s| ==> s[k] != ',';
    }
    assert Split(s, ',') == [s];
    StripTrimmed(s);
    assert NonBlank([s]) == [Strip(s)] + NonBlank([]);
  }

  /** The default value of both switches leaves them off. */
  lemma DefaultFlagOff()
    ensures !ParseFlag("false")
  {
    var s := "false";
    assert Lower(s)[0] == 'f';
    assert Lower(s) == s;
  }

  /** The recognised configuration, after defaults are applied. */
  datatype Settings = Settings(
    interval: int,
    cpuThreshold: int,
    memThreshold: int,
    diskThreshold: int,
    diskPartition: string,
    topN: int,
    smtpEnabled: bool,
    smtpHost: string,
    smtpPort: int,
    smtpUser: string,
    smtpPassword: string,
    smtpFrom: string,
    smtpTo: seq<string>,
    webhookEnabled: bool,
    webhookUrl: string,
    hostname: string)

  /** A switch read from `env[key]`, off when the variable is unset. */
  function Switch(env: map<string, string>, key: string): (on: bool)
    ensures on <==> key in env && ParseFlag(env[key])
  {
    DefaultFlagOff();
    ParseFlag(Getenv(env, key, "false"))
  }

  /** `SMTP_TO` parsed, with the single default recipient when it is unset. */
  function RecipientSetting(env: map<string, string>): (to: seq<string>)
    ensures forall e :: e in to ==> WellFormedRecipient(e)
    ensures "SMTP_TO" in env ==> to == Recipients(env["SMTP_TO"])
    ensures "SMTP_TO" !in env ==> to == ["admin@example.com"]
  {
    DefaultRecipient();
    Recipients(Getenv(env, "SMTP_TO", "admin@example.com"))
  }

  /**
   * The settings for environment `env`. `toInt` is Python's `int()` on a
   * raw value; `nodename` is `os.uname().nodename`, or None where the
   * platform has no `uname`.
   */
  function Load(env: map<string, string>, toInt: string -> int, nodename: Option<string>): (cfg: Settings)
    ensures cfg.smtpFrom == (if "SMTP_FROM" in env then env["SMTP_FROM"] else cfg.smtpUser)
    ensures "SMTP_FROM" !in env && "SMTP_USER" !in env ==> cfg.smtpFrom == "alerts@example.com"
    ensures forall e :: e in cfg.smtpTo ==> WellFormedRecipient(e)
    ensures "SMTP_TO" !in env ==> cfg.smtpTo == ["admin@example.com"]
    ensures "SMTP_TO" in env ==> cfg.smtpTo == Recipients(env["SMTP_TO"])
    ensures cfg.smtpEnabled <==> "SMTP_ENABLED" in env && ParseFlag(env["SMTP_ENABLED"])
    ensures cfg.webhookEnabled <==> "WEBHOOK_ENABLED" in env && ParseFlag(env["WEBHOOK_ENABLED"])
    ensures cfg.smtpUser == Getenv(env, "SMTP_USER", "alerts@example.com")
    ensures cfg.smtpPassword == Getenv(env, "SMTP_PASSWORD", "")
    ensures cfg.smtpHost == Getenv(env, "SMTP_HOST", "smtp.example.com")
    ensures cfg.webhookUrl == Getenv(env, "WEBHOOK_URL", "")
    ensures cfg.diskPartition == Getenv(env, "DISK_PARTITION", "/")
    ensures "HOSTNAME" in env ==> cfg.hostname == env["HOSTNAME"]
    ensures "HOSTNAME" !in env ==> cfg.hostname == (if nodename.Some? then nodename.value else "unknown-host")
    ensures cfg.interval == toInt(Getenv(env, "MONITOR_INTERVAL", "30"))
    ensures cfg.cpuThreshold == toInt(Getenv(env, "CPU_THRESHOLD_PERCENT", "85"))
    ensures cfg.memThreshold == toInt(Getenv(env, "MEM_THRESHOLD_PERCENT", "85"))
    ensures cfg.diskThreshold == toInt(Getenv(env, "DISK_THRESHOLD_PERCENT", "90"))
    ensures cfg.topN == toInt(Getenv(env, "TOP_N_PROCESSES", "5"))
    ensures cfg.smtpPort == toInt(Getenv(env, "SMTP_PORT", "587"))
  {
    var user := Getenv(env, "SMTP_USER", "alerts@example.com");
    Settings(
      interval := toInt(Getenv(env, "MONITOR_INTERVAL", "30")),
      cpuThreshold := toInt(Getenv(env, "CPU_THRESHOLD_PERCENT", "85")),
      memThreshold := toInt(Getenv(env, "MEM_THRESHOLD_PERCENT", "85")),
      diskThreshold := toInt(Getenv(env, "DISK_THRESHOLD_PERCENT", "90")),
      diskPartition := Getenv(env, "DISK_PARTITION", "/"),
      topN := toInt(Getenv(env, "TOP_N_PROCESSES", "5")),
      smtpEnabled := Switch(env, "SMTP_ENABLED"),
      smtpHost := Getenv(env, "SMTP_HOST", "smtp.example.com"),
      smtpPort := toInt(Getenv(env, "SMTP_PORT", "587")),
      smtpUser := user,
      smtpPassword := Getenv(env, "SMTP_PASSWORD", ""),
      smtpFrom := Getenv(env, "SMTP_FROM", user),
      smtpTo := RecipientSetting(env),
      webhookEnabled := Switch(env, "WEBHOOK_ENABLED"),
      webhookUrl := Getenv(env, "WEBHOOK_URL", ""),
      hostname := Getenv(env, "HOSTNAME", if nodename.Some? then nodename.value else "unknown-host"))
  }
}
