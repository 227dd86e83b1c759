/** The password server's helpers: the salt for a new password hash (its
    crypt method read once from login.defs, its prefix, its random
    characters), the privilege check on the connected client, the
    dispatch of a client request and the update of the shadow file.
    `random()`, `crypt()`, `system()` and the shadow-file lock are given as
    arguments. */
module PasswdUtil {
  import opened Common
  import opened PasswdPub

  const MAX_SALT_SIZE: nat := 16
  const MIN_SALT_SIZE: nat := 8

  /** glibc's `RAND_MAX`; `random()` returns a value in 0..RAND_MAX. */
  const RAND_MAX: nat := 2147483647

  const OVSDB_GROUP: string := "ovsdb-client"
  const ADMIN_GROUP: string := "ops_admin"

  /** The digits `l64a` writes, least significant first. */
  const L64A_DIGITS: string := "./0123456789ABCDEFGHIJKLMNOPQRSTUVWXYZabcdefghijklmnopqrstuvwxyz"

  /** `l64a(v)`: the base-64 digits of `v`, least significant first; empty
      for 0. */
  function L64a(v: nat): (r: string)
    ensures forall i :: 0 <= i < |r| ==> r[i] in L64A_DIGITS
    ensures v > 0 ==> |r| >= 1
    decreases v
  {
    if v == 0 then "" else [L64A_DIGITS[v % 64]] + L64a(v / 64)
  }

  /** A value of `random()` gives at most six digits. */
  lemma {:induction false} L64aOfRandomIsShort(v: nat)
    requires v <= RAND_MAX
    ensures |L64a(v)| <= 6
  {
    L64aLength(v, 6);
  }

  function Pow64(k: nat): (p: nat)
    ensures p >= 1
  {
    if k == 0 then 1 else 64 * Pow64(k - 1)
  }

  lemma {:induction false} L64aLength(v: nat, k: nat)
    requires v < Pow64(k)
    ensures |L64a(v)| <= k
    decreases k
  {
    if v > 0 {
      assert k > 0;
      assert v / 64 < Pow64(k - 1);
      L64aLength(v / 64, k - 1);
    }
  }

  /** `generate_salt` only accepts sizes 8..16. */
  predicate SaltSizeAccepted(n: nat)
  {
    MIN_SALT_SIZE <= n <= MAX_SALT_SIZE
  }

  /** Values `random()` can return, without 0 (which `l64a` turns into
      the empty text). */
  predicate PositiveRandoms(rs: seq<nat>)
  {
    forall k :: 0 <= k < |rs| ==> 0 < rs[k] <= RAND_MAX
  }

  /** The `do ... while (strlen(salt) < size)` loop: digits are appended
      until the salt is long enough. */
  function SaltFill(acc: string, size: nat, rs: seq<nat>): string
    decreases |rs|
  {
    if |acc| >= size || rs == [] then acc else SaltFill(acc + L64a(rs[0]), size, rs[1..])
  }

  lemma {:induction false} SaltFillReaches(acc: string, size: nat, rs: seq<nat>)
    requires PositiveRandoms(rs) && |acc| + |rs| >= size
    ensures |SaltFill(acc, size, rs)| >= size
    ensures forall i :: 0 <= i < |acc| ==> SaltFill(acc, size, rs)[i] == acc[i]
    decreases |rs|
  {
    if |acc| < size && rs != [] {
      SaltFillReaches(acc + L64a(rs[0]), size, rs[1..]);
    }
  }

  lemma {:induction false} SaltFillDigits(acc: string, size: nat, rs: seq<nat>)
    requires forall i :: 0 <= i < |acc| ==> acc[i] in L64A_DIGITS
    ensures forall i :: 0 <= i < |SaltFill(acc, size, rs)| ==> SaltFill(acc, size, rs)[i] in L64A_DIGITS
    decreases |rs|
  {
    if |acc| < size && rs != [] {
      SaltFillDigits(acc + L64a(rs[0]), size, rs[1..]);
    }
  }

  /** The salt stays inside `generate_salt`'s 32-byte static buffer: it
      is at most 21 characters long before truncation. */
  lemma {:induction false} SaltFillStaysInBuffer(acc: string, size: nat, rs: seq<nat>)
    requires PositiveRandoms(rs) && |acc| <= 21 && size <= MAX_SALT_SIZE
    ensures |SaltFill(acc, size, rs)| <= 21 < 32
    decreases |rs|
  {
    if |acc| < size && rs != [] {
      L64aOfRandomIsShort(rs[0]);
      SaltFillStaysInBuffer(acc + L64a(rs[0]), size, rs[1..]);
    }
  }

  /** `generate_salt(size)` on the values `random()` returns: NULL unless
      8 <= size <= 16, and otherwise exactly `size` digits of `l64a`. */
  function GeneratedSalt(size: nat, rs: seq<nat>): (r: Option<string>)
    requires PositiveRandoms(rs) && |rs| > MAX_SALT_SIZE
    ensures r.None? <==> !SaltSizeAccepted(size)
    ensures r.Some? ==> |r.value| == size
    ensures r.Some? ==> forall i :: 0 <= i < |r.value| ==> r.value[i] in L64A_DIGITS
  {
    if !SaltSizeAccepted(size) then None
    else
      var first := L64a(rs[0]) + L64a(rs[1]);
      SaltFillReaches(first, size, rs[2..]);
      SaltFillDigits(first, size, rs[2..]);
      Some(SaltFill(first, size, rs[2..])[..size])
  }

  /** `generate_salt`. */
  method GenerateSalt(size: nat, rs: seq<nat>) returns (r: Option<string>)
    requires PositiveRandoms(rs) && |rs| > MAX_SALT_SIZE
    ensures r == GeneratedSalt(size, rs)
  {
    if !(size >= MIN_SALT_SIZE && size <= MAX_SALT_SIZE) {
      return None;
    }
    var salt := L64a(rs[0]);
    salt := salt + L64a(rs[1]);
    ghost var first := salt;
    L64aOfRandomIsShort(rs[0]);
    L64aOfRandomIsShort(rs[1]);
    var i := 2;
    while |salt| < size
      invariant 2 <= i <= |rs|
      invariant i <= |salt| <= 21
      invariant SaltFill(salt, size, rs[i..]) == SaltFill(first, size, rs[2..])
      decreases size - |salt|
    {
      assert rs[i..][1..] == rs[i + 1..];
      L64aOfRandomIsShort(rs[i]);
      salt := salt + L64a(rs[i]);
      i := i + 1;
    }
    r := Some(salt[..size]);
  }

  /** `SHA_salt_size` as written: `8 + 9.0 * random() / RAND_MAX`,
      truncated. The double arithmetic is exact enough that this is the
      integer quotient. The result reaches 17 when `random()` returns
      RAND_MAX. */
  function ShaSaltSize(rnd: nat): (n: nat)
    requires rnd <= RAND_MAX
    ensures 8 <= n <= 17
    ensures n == 17 <==> rnd == RAND_MAX
  {
    var q := (9 * rnd) / RAND_MAX;
    assert q <= 9 by { DivBound(9 * rnd, RAND_MAX, 9); }
    assert q == 9 <==> rnd == RAND_MAX by {
      if rnd < RAND_MAX {
        DivBelow(9 * rnd, RAND_MAX, 9);
      }
    }
    8 + q
  }

  lemma DivBound(a: nat, d: nat, k: nat)
    requires d > 0 && a <= k * d
    ensures a / d <= k
  {
  }

  lemma DivBelow(a: nat, d: nat, k: nat)
    requires d > 0 && a < k * d
    ensures a / d < k
  {
  }

  /** The SHA salt size as its comment describes it: 8..16. */
  function ShaSaltSizeInRange(rnd: nat): (n: nat)
    requires rnd <= RAND_MAX
    ensures SaltSizeAccepted(n)
  {
    var q := (9 * rnd) / (RAND_MAX + 1);
    assert q < 9 by { DivBelow(9 * rnd, RAND_MAX + 1, 9); }
    8 + q
  }

  /** `SHA_salt_size` can pick 17, a size `generate_salt` refuses, so
      `create_new_salt` hands NULL to `strncat`. */
  lemma ShaSaltSizeCanBeRefused(rs: seq<nat>)
    requires PositiveRandoms(rs) && |rs| > MAX_SALT_SIZE
    ensures ShaSaltSize(RAND_MAX) == 17
    ensures GeneratedSalt(ShaSaltSize(RAND_MAX), rs).None?
  {
  }

  /** The corrected size is always accepted, so a SHA salt always exists. */
  lemma ShaSaltInRangeIsGenerated(rnd: nat, rs: seq<nat>)
    requires rnd <= RAND_MAX
    requires PositiveRandoms(rs) && |rs| > MAX_SALT_SIZE
    ensures GeneratedSalt(ShaSaltSizeInRange(rnd), rs).Some?
    ensures |GeneratedSalt(ShaSaltSizeInRange(rnd), rs).value| <= MAX_SALT_SIZE
  {
  }

  /** The match test of `search_login_defs`: the line starts with the
      target, immediately followed by a space. */
  predicate LineMatches(line: string, target: string)
  {
    |line| > |target| && line[..|target|] == target && line[|target|] == ' '
  }

  /** Index of the first matching line, if any. */
  function FirstMatchingLine(lines: seq<string>, target: string): (r: Option<nat>)
    ensures r.Some? ==> r.value < |lines| && LineMatches(lines[r.value], target)
    ensures r.Some? ==> forall j :: 0 <= j < r.value ==> !LineMatches(lines[j], target)
    ensures r.None? ==> forall j :: 0 <= j < |lines| ==> !LineMatches(lines[j], target)
  {
    if lines == [] then None
    else if LineMatches(lines[0], target) then Some(0)
    else match FirstMatchingLine(lines[1..], target) {
      case None => None
      case Some(i) => Some(i + 1)
    }
  }

  /** What `search_login_defs` returns as written: the rest of the first
      matching line after the space, trailing newline included (the
      statement meant to cut it off, `value[strlen(value)] = '\0'`,
      writes over the terminator that is already there). `file` is the
      lines `fgets` reads, None when the file does not open. */
  function RawLoginDefsValue(file: Option<seq<string>>, target: string): (r: Option<string>)
    ensures r.Some? ==> file.Some? && exists j :: 0 <= j < |file.value| && LineMatches(file.value[j], target) &&
                                              file.value[j] == target + " " + r.value
    ensures r.None? <==> file.None? || forall j :: 0 <= j < |file.value| ==> !LineMatches(file.value[j], target)
  {
    if file.None? then None
    else match FirstMatchingLine(file.value, target) {
      case None => None
      case Some(i) =>
        var line := file.value[i];
        assert line == line[..|target|] + [' '] + line[|target| + 1..];
        Some(line[|target| + 1..])
    }
  }

  /** One trailing newline removed. */
  function StripNewline(v: string): (r: string)
    ensures r <= v && |v| - 1 <= |r|
    ensures forall i :: 0 <= i < |r| ==> r[i] == v[i]
    ensures (0 < |v| && v[|v| - 1] == '\n') <==> |r| == |v| - 1
  {
    if 0 < |v| && v[|v| - 1] == '\n' then v[..|v| - 1] else v
  }

  /** The value of a login.defs setting without its line's newline. */
  function LoginDefsValue(file: Option<seq<string>>, target: string): (r: Option<string>)
    ensures r.None? <==> RawLoginDefsValue(file, target).None?
    ensures r.Some? ==> r.value == StripNewline(RawLoginDefsValue(file, target).value)
  {
    match RawLoginDefsValue(file, target) {
      case None => None
      case Some(v) => Some(StripNewline(v))
    }
  }

  /** `search_login_defs`, with the value's newline removed. */
  method SearchLoginDefs(file: Option<seq<string>>, target: string) returns (r: Option<string>)
    ensures r == LoginDefsValue(file, target)
  {
    if file.None? {
      return None;
    }
    var lines := file.value;
    var i := 0;
    while i < |lines|
      invariant 0 <= i <= |lines|
      invariant forall j :: 0 <= j < i ==> !LineMatches(lines[j], target)
    {
      var line := lines[i];
      if |line| > |target| && line[..|target|] == target && line[|target|] == ' ' {
        var value := line[|target| + 1..];
        if 0 < |value| && value[|value| - 1] == '\n' {
          value := value[..|value| - 1];
        }
        return Some(value);
      }
      i := i + 1;
    }
    r := None;
  }

  /** `strncmp(v, "no", strlen(v)) == 0`: the value is a prefix of "no"
      (the empty value included). */
  predicate MeansNo(v: string)
  {
    v <= "no"
  }

  /** The crypt method `find_encrypt_method` settles on, from the values
      login.defs gives: ENCRYPT_METHOD when it is set; otherwise DES when
      MD5_CRYPT_ENAB is missing or says "no", and MD5 when it says
      anything else. */
  function MethodFrom(encryptMethod: Option<string>, md5CryptEnab: Option<string>): (m: string)
    ensures encryptMethod.Some? ==> m == encryptMethod.value
    ensures encryptMethod.None? ==> (m == "DES" <==> md5CryptEnab.None? || MeansNo(md5CryptEnab.value))
    ensures encryptMethod.None? ==> (m == "MD5" <==> md5CryptEnab.Some? && !MeansNo(md5CryptEnab.value))
  {
    if encryptMethod.Some? then encryptMethod.value
    else if md5CryptEnab.None? || MeansNo(md5CryptEnab.value) then "DES"
    else "MD5"
  }

  /** The method as the code reads it, newline kept. */
  function EncryptMethodAsWritten(file: Option<seq<string>>): string
  {
    MethodFrom(RawLoginDefsValue(file, "ENCRYPT_METHOD"), RawLoginDefsValue(file, "MD5_CRYPT_ENAB"))
  }

  /** The method with each value's newline removed. */
  function EncryptMethodOf(file: Option<seq<string>>): string
  {
    MethodFrom(LoginDefsValue(file, "ENCRYPT_METHOD"), LoginDefsValue(file, "MD5_CRYPT_ENAB"))
  }

  /** A login.defs without ENCRYPT_METHOD whose line says
      "MD5_CRYPT_ENAB no" selects MD5 as written, because the value read
      is "no\n" and the prefix compare covers the newline. */
  lemma Md5DisabledReadsAsMd5()
    ensures EncryptMethodAsWritten(Some(["MD5_CRYPT_ENAB no\n"])) == "MD5"
  {
    var f := Some(["MD5_CRYPT_ENAB no\n"]);
    var line := "MD5_CRYPT_ENAB no\n";
    assert !LineMatches(line, "ENCRYPT_METHOD") by { assert line[0] != "ENCRYPT_METHOD"[0]; }
    assert LineMatches(line, "MD5_CRYPT_ENAB");
    assert RawLoginDefsValue(f, "ENCRYPT_METHOD") == None;
    assert RawLoginDefsValue(f, "MD5_CRYPT_ENAB") == Some("no\n");
    assert !MeansNo("no\n") by { assert |"no\n"| > |"no"|; }
  }

  /** Read without the newline, "MD5_CRYPT_ENAB no" (with or without a
      newline, and whatever lines without a setting surround it)
      selects DES. */
  lemma Md5DisabledReadsAsDes(before: seq<string>, nl: string, after: seq<string>)
    requires nl == "" || nl == "\n"
    requires forall j :: 0 <= j < |before| ==> !LineMatches(before[j], "MD5_CRYPT_ENAB")
    requires forall j :: 0 <= j < |before| ==> !LineMatches(before[j], "ENCRYPT_METHOD")
    requires forall j :: 0 <= j < |after| ==> !LineMatches(after[j], "ENCRYPT_METHOD")
    ensures EncryptMethodOf(Some(before + ["MD5_CRYPT_ENAB no" + nl] + after)) == "DES"
  {
    var lines := before + ["MD5_CRYPT_ENAB no" + nl] + after;
    var line := "MD5_CRYPT_ENAB no" + nl;
    assert lines[|before|] == line;
    assert !LineMatches(line, "ENCRYPT_METHOD") by { assert line[0] != "ENCRYPT_METHOD"[0]; }
    assert LineMatches(line, "MD5_CRYPT_ENAB");
    forall j | 0 <= j < |lines|
      ensures !LineMatches(lines[j], "ENCRYPT_METHOD")
    {
      if j > |before| {
        assert lines[j] == after[j - |before| - 1];
      } else if j < |before| {
        assert lines[j] == before[j];
      }
    }
    assert LoginDefsValue(Some(lines), "ENCRYPT_METHOD") == None;
    assert FirstMatchingLine(lines, "MD5_CRYPT_ENAB") == Some(|before|);
    assert line[|"MD5_CRYPT_ENAB"| + 1..] == "no" + nl;
    assert RawLoginDefsValue(Some(lines), "MD5_CRYPT_ENAB") == Some("no" + nl);
    assert StripNewline("no" + nl) == "no";
  }

  /** The prefix `create_new_salt` writes for a crypt method, compared on
      the method's first characters: "$1$" for MD5, "$5$" for SHA256,
      "$6$" for SHA512, None (a NULL salt) for DES, and an empty prefix
      for anything else. */
  function SaltPrefix(m: string): (r: Option<string>)
    ensures r == Some("$1$") <==> "MD5" <= m
    ensures r == Some("$5$") <==> !("MD5" <= m) && "SHA256" <= m
    ensures r == Some("$6$") <==> !("MD5" <= m) && !("SHA256" <= m) && "SHA512" <= m
    ensures r.None? <==> !("MD5" <= m) && !("SHA256" <= m) && !("SHA512" <= m) && "DES" <= m
    ensures r == Some("") <==> !("MD5" <= m) && !("SHA256" <= m) && !("SHA512" <= m) && !("DES" <= m)
  {
    if "MD5" <= m then Some("$1$")
    else if "SHA256" <= m then Some("$5$")
    else if "SHA512" <= m then Some("$6$")
    else if !("DES" <= m) then Some("")
    else None
  }

  /** The prefix compare makes anything after the method name (a newline,
      say) irrelevant. */
  lemma {:induction false} SaltPrefixIgnoresSuffix(m: string, suffix: string)
    requires m == "MD5" || m == "SHA256" || m == "SHA512" || m == "DES"
    ensures SaltPrefix(m + suffix) == SaltPrefix(m)
  {
    var ms := m + suffix;
    assert ms[..|m|] == m;
    if m == "SHA256" {
      assert ms[0] == 'S';
    } else if m == "SHA512" {
      assert ms[0] == 'S' && ms[3] == '5';
    } else if m == "DES" {
      assert ms[0] == 'D';
    }
  }

  /** The salt length: the random SHA size for the two SHA methods, 8
      otherwise. */
  function SaltLength(m: string, rnd: nat): (n: nat)
    requires rnd <= RAND_MAX
    ensures SaltSizeAccepted(n)
    ensures SaltPrefix(m) == Some("$5$") || SaltPrefix(m) == Some("$6$") ==> n == ShaSaltSizeInRange(rnd)
    ensures SaltPrefix(m) == Some("$1$") || SaltPrefix(m) == Some("") ==> n == 8
  {
    if !("MD5" <= m) && ("SHA256" <= m || "SHA512" <= m) then ShaSaltSizeInRange(rnd) else 8
  }

  /** Size of `create_new_salt`'s result buffer. */
  const SALT_RESULT_SIZE: nat := 40

  /** The salt `create_new_salt` returns for a method: None for DES, and
      otherwise the method's prefix followed by the random digits, cut by
      `strncat` to what the 40-byte buffer holds (which never bites). */
  function NewSalt(m: string, rnd: nat, rs: seq<nat>): (r: Option<string>)
    requires rnd <= RAND_MAX
    requires PositiveRandoms(rs) && |rs| > MAX_SALT_SIZE
    ensures r.None? <==> SaltPrefix(m).None?
    ensures r.Some? ==> SaltPrefix(m).value <= r.value
    ensures r.Some? ==> |r.value| == |SaltPrefix(m).value| + SaltLength(m, rnd)
    ensures r.Some? ==> forall i :: |SaltPrefix(m).value| <= i < |r.value| ==> r.value[i] in L64A_DIGITS
  {
    match SaltPrefix(m) {
      case None => None
      case Some(p) =>
        var salt := GeneratedSalt(SaltLength(m, rnd), rs).value;
        var cut := Take(salt, SALT_RESULT_SIZE - |p| - 1);
        assert cut == salt;
        Some(p + cut)
    }
  }

  /** `strncat`'s limit: at most n characters. */
  function Take(s: string, n: nat): (r: string)
    ensures r <= s && (|s| <= n ==> r == s)
  {
    if |s| <= n then s else s[..n]
  }

  /** An unreadable login.defs means DES, and then no salt at all. */
  lemma MissingLoginDefsGivesNoSalt(rnd: nat, rs: seq<nat>)
    requires rnd <= RAND_MAX
    requires PositiveRandoms(rs) && |rs| > MAX_SALT_SIZE
    ensures EncryptMethodOf(None) == "DES"
    ensures NewSalt(EncryptMethodOf(None), rnd, rs).None?
  {
  }

  /** A SHA512 method always gets "$6$" and 8..16 digits. */
  lemma Sha512SaltShape(rnd: nat, rs: seq<nat>)
    requires rnd <= RAND_MAX
    requires PositiveRandoms(rs) && |rs| > MAX_SALT_SIZE
    ensures NewSalt("SHA512", rnd, rs).Some?
    ensures var s := NewSalt("SHA512", rnd, rs).value;
            s[..3] == "$6$" && 3 + MIN_SALT_SIZE <= |s| <= 3 + MAX_SALT_SIZE
  {
    assert !("MD5" <= "SHA512") by { assert "SHA512"[0] != "MD5"[0]; }
    assert !("SHA256" <= "SHA512") by { assert "SHA512"[3] != "SHA256"[3]; }
    assert SaltPrefix("SHA512") == Some("$6$");
  }

  /** The cached `crypt_method` and the salt built from it. */
  class SaltGenerator {
    var cryptMethod: Option<string>

    constructor ()
      ensures cryptMethod.None?
    {
      cryptMethod := None;
    }

    /** `find_encrypt_method`. */
    method FindEncryptMethod(loginDefs: Option<seq<string>>)
      modifies this
      ensures cryptMethod == Some(EncryptMethodOf(loginDefs))
    {
      var method_ := SearchLoginDefs(loginDefs, "ENCRYPT_METHOD");
      if method_.None? {
        method_ := SearchLoginDefs(loginDefs, "MD5_CRYPT_ENAB");
        if method_.None? || method_.value <= "no" {
          cryptMethod := Some("DES");
        } else {
          cryptMethod := Some("MD5");
        }
        return;
      }
      cryptMethod := method_;
    }

    /** `create_new_salt`: login.defs is read on the first call only; the
        salt follows the cached method. The SHA size is the corrected
        one. */
    method CreateNewSalt(loginDefs: Option<seq<string>>, rnd: nat, rs: seq<nat>) returns (r: Option<string>)
      requires rnd <= RAND_MAX
      requires PositiveRandoms(rs) && |rs| > MAX_SALT_SIZE
      modifies this
      ensures old(cryptMethod).Some? ==> cryptMethod == old(cryptMethod)
      ensures old(cryptMethod).None? ==> cryptMethod == Some(EncryptMethodOf(loginDefs))
      ensures cryptMethod.Some? && r == NewSalt(cryptMethod.value, rnd, rs)
    {
      if cryptMethod.None? {
        FindEncryptMethod(loginDefs);
      }
      var m := cryptMethod.value;
      var prefix: string;
      var saltLen: nat := 8;
      if "MD5" <= m {
        prefix := "$1$";
      } else if "SHA256" <= m {
        prefix := "$5$";
        saltLen := ShaSaltSizeInRange(rnd);
      } else if "SHA512" <= m {
        prefix := "$6$";
        saltLen := ShaSaltSizeInRange(rnd);
      } else if !("DES" <= m) {
        prefix := "";
      } else {
        return None;
      }
      var salt := GenerateSalt(saltLen, rs);
      r := Some(prefix + Take(salt.value, SALT_RESULT_SIZE - |prefix| - 1));
    }
  }

  /** Whether a user is in a group, as `check_user_group` finds it through
      getpwnam and getgrouplist: a user unknown to the system is in no
      group. */
  predicate InGroup(groups: map<string, set<string>>, user: string, group: string)
  {
    user in groups && group in groups[user]
  }

  /** `validate_user`: NULL is INVALID_USER; root may do anything; a
      password change needs ovsdb-client, adding or deleting a user needs
      ops_admin, and other opcodes are INVALID_OPCODE. */
  function ValidateUser(opcode: int, client: Option<string>, groups: map<string, set<string>>): (rc: int)
    ensures rc == PASSWD_ERR_SUCCESS <==>
              client.Some? &&
              (client.value == "root" ||
               (opcode == PASSWD_MSG_CHG_PASSWORD && InGroup(groups, client.value, OVSDB_GROUP)) ||
               ((opcode == PASSWD_MSG_ADD_USER || opcode == PASSWD_MSG_DEL_USER) && InGroup(groups, client.value, ADMIN_GROUP)))
    ensures rc == PASSWD_ERR_INVALID_OPCODE <==>
              client.Some? && client.value != "root" &&
              opcode != PASSWD_MSG_CHG_PASSWORD && opcode != PASSWD_MSG_ADD_USER && opcode != PASSWD_MSG_DEL_USER
    ensures rc == PASSWD_ERR_SUCCESS || rc == PASSWD_ERR_INVALID_USER || rc == PASSWD_ERR_INVALID_OPCODE
  {
    if client.None? then PASSWD_ERR_INVALID_USER
    else if |client.value| == |"root"| && client.value == "root" then PASSWD_ERR_SUCCESS
    else if opcode == PASSWD_MSG_CHG_PASSWORD then
      if !InGroup(groups, client.value, OVSDB_GROUP) then PASSWD_ERR_INVALID_USER else PASSWD_ERR_SUCCESS
    else if opcode == PASSWD_MSG_ADD_USER || opcode == PASSWD_MSG_DEL_USER then
      if !InGroup(groups, client.value, ADMIN_GROUP) then PASSWD_ERR_INVALID_USER else PASSWD_ERR_SUCCESS
    else PASSWD_ERR_INVALID_OPCODE
  }

  /** One line of /etc/shadow: the user name and the password hash. */
  datatype ShadowEntry = ShadowEntry(name: string, pwdp: string)

  /** A client request. */
  datatype Request = Request(opCode: int, username: string, oldPasswd: string, newPasswd: string)

  /** Index of the first shadow entry with exactly this name. */
  function FirstNamed(shadow: seq<ShadowEntry>, name: string): (r: Option<nat>)
    ensures r.Some? ==> r.value < |shadow| && shadow[r.value].name == name
    ensures r.Some? ==> forall j :: 0 <= j < r.value ==> shadow[j].name != name
    ensures r.None? ==> forall j :: 0 <= j < |shadow| ==> shadow[j].name != name
  {
    if shadow == [] then None
    else if shadow[0].name == name then Some(0)
    else match FirstNamed(shadow[1..], name) {
      case None => None
      case Some(i) => Some(i + 1)
    }
  }

  /** The shadow file without the entries of a user, as userdel leaves
      it. */
  function WithoutUser(shadow: seq<ShadowEntry>, name: string): (r: seq<ShadowEntry>)
    ensures forall j :: 0 <= j < |r| ==> r[j].name != name
    ensures forall e :: e in shadow && e.name != name ==> e in r
    ensures forall e :: e in r ==> e in shadow
  {
    if shadow == [] then []
    else if shadow[0].name == name then WithoutUser(shadow[1..], name)
    else [shadow[0]] + WithoutUser(shadow[1..], name)
  }

  /** `validate_password`: crypt's result on the old password must start
      with the stored hash (the compare is `strncmp` over the stored
      hash's length); NULL from crypt fails. */
  predicate OldPasswordMatches(stored: string, crypted: Option<string>)
  {
    crypted.Some? && stored <= crypted.value
  }

  /** `create_user`'s result: NULL when `system()` fails; after useradd,
      the new user's shadow entry as looked up again; after userdel,
      always NULL, since the entry pointer is only set for useradd. */
  function CreateUserResult(useradd: bool, commandOk: bool, lookedUp: Option<nat>): (r: Option<nat>)
    ensures r.Some? ==> useradd && commandOk && r == lookedUp
    ensures !useradd ==> r.None?
  {
    if !commandOk then None
    else if useradd then lookedUp
    else None
  }

  /** The delete outcome as written: `process_client_request` reports
      USERDEL_FAILED only when `create_user(name, FALSE)` returns an
      entry, which it never does. */
  function DeleteOutcomeAsWritten(commandOk: bool): int
  {
    if CreateUserResult(false, commandOk, None).Some? then PASSWD_ERR_USERDEL_FAILED else PASSWD_ERR_SUCCESS
  }

  /** A userdel that `system()` cannot run is reported as a success. */
  lemma FailedUserdelReportsSuccess()
    ensures DeleteOutcomeAsWritten(false) == PASSWD_ERR_SUCCESS
    ensures DeleteOutcomeAsWritten(false) != DeleteOutcome(false)
  {
  }

  /** The delete outcome as intended: a userdel that cannot be run gives
      USERDEL_FAILED. */
  function DeleteOutcome(commandOk: bool): (rc: int)
    ensures rc == PASSWD_ERR_SUCCESS <==> commandOk
    ensures !commandOk ==> rc == PASSWD_ERR_USERDEL_FAILED
  {
    if commandOk then PASSWD_ERR_SUCCESS else PASSWD_ERR_USERDEL_FAILED
  }

  /** An entry as `putspent` writes it; the fields after the hash are
      the same before and after a password change and are left out. */
  function ShadowLine(e: ShadowEntry): string
  {
    e.name + ":" + e.pwdp + "\n"
  }

  /** The text of the shadow file: its lines in order. */
  function ShadowText(entries: seq<ShadowEntry>): string
  {
    if entries == [] then [] else ShadowLine(entries[0]) + ShadowText(entries[1..])
  }

  lemma {:induction false} ShadowTextSplit(entries: seq<ShadowEntry>, i: nat)
    requires i <= |entries|
    ensures ShadowText(entries) == ShadowText(entries[..i]) + ShadowText(entries[i..])
  {
    if i > 0 {
      ShadowTextSplit(entries[1..], i - 1);
      assert entries[1..][..i - 1] == entries[1..i];
      assert entries[1..][i - 1..] == entries[i..];
      assert entries[..i] == [entries[0]] + entries[1..i];
      assert entries[..i][1..] == entries[1..i];
    } else {
      assert entries[..0] == [] && entries[0..] == entries;
    }
  }

  /** `text` with `line` written over it from offset `off`, as a stream
      opened for reading and writing (`fopen` mode "r+a" does not append)
      writes it after `fsetpos`: what follows the line is kept, and the
      file grows only when the line runs past its end. */
  function OverwriteAt(text: string, off: nat, line: string): (r: string)
    requires off <= |text|
    ensures |r| == if off + |line| <= |text| then |text| else off + |line|
    ensures r[..off] == text[..off] && r[off..off + |line|] == line
  {
    text[..off] + line + (if off + |line| <= |text| then text[off + |line|..] else [])
  }

  /** `store_password` as written: the changed entry is written in place
      at the offset where the old one started. */
  function StoreInPlace(entries: seq<ShadowEntry>, i: nat, pass: string): string
    requires i < |entries|
  {
    ShadowTextSplit(entries, i);
    OverwriteAt(ShadowText(entries), |ShadowText(entries[..i])|, ShadowLine(entries[i].(pwdp := pass)))
  }

  /** Replacing entry i changes the file's length by the change in that
      line's length. */
  lemma ShadowTextUpdateLength(entries: seq<ShadowEntry>, i: nat, e: ShadowEntry)
    requires i < |entries|
    ensures |ShadowText(entries[i := e])| == |ShadowText(entries)| - |ShadowLine(entries[i])| + |ShadowLine(e)|
  {
    var t := entries[i := e];
    ShadowTextSplit(entries, i);
    ShadowTextSplit(t, i);
    assert t[..i] == entries[..i];
    assert t[i..] == [e] + entries[i + 1..];
    assert entries[i..] == [entries[i]] + entries[i + 1..];
    assert ShadowText(t[i..]) == ShadowLine(e) + ShadowText(entries[i + 1..]);
    assert ShadowText(entries[i..]) == ShadowLine(entries[i]) + ShadowText(entries[i + 1..]);
  }

  /** As written, a shorter hash leaves the end of the old line behind as
      a fragment: the file keeps its old length, which is not the length
      of the file with the entry replaced. */
  lemma ShorterHashLeavesFragment(entries: seq<ShadowEntry>, i: nat, pass: string)
    requires i < |entries| && |pass| < |entries[i].pwdp|
    ensures StoreInPlace(entries, i, pass) != ShadowText(entries[i := entries[i].(pwdp := pass)])
  {
    var e := entries[i].(pwdp := pass);
    ShadowTextSplit(entries, i);
    assert entries[i..] == [entries[i]] + entries[i + 1..];
    assert |ShadowText(entries[i..])| >= |ShadowLine(entries[i])|;
    ShadowTextUpdateLength(entries, i, e);
    assert |StoreInPlace(entries, i, pass)| == |ShadowText(entries)|;
  }

  /** A hash of the old one's length is rewritten exactly: in place the
      file becomes the file with the entry replaced. */
  lemma {:induction false} SameLengthHashRewritesEntry(entries: seq<ShadowEntry>, i: nat, pass: string)
    requires i < |entries| && |pass| == |entries[i].pwdp|
    ensures StoreInPlace(entries, i, pass) == ShadowText(entries[i := entries[i].(pwdp := pass)])
  {
    var e := entries[i].(pwdp := pass);
    var t := entries[i := e];
    ShadowTextSplit(entries, i);
    ShadowTextSplit(t, i);
    assert t[..i] == entries[..i];
    assert t[i..] == [e] + entries[i + 1..];
    assert entries[i..] == [entries[i]] + entries[i + 1..];
    assert [e][1..] == [] && [entries[i]][1..] == [];
    assert ([e] + entries[i + 1..])[1..] == entries[i + 1..];
    assert ([entries[i]] + entries[i + 1..])[1..] == entries[i + 1..];
    var pre := ShadowText(entries[..i]);
    var post := ShadowText(entries[i + 1..]);
    assert ShadowText(entries) == pre + ShadowLine(entries[i]) + post;
    assert ShadowText(t) == pre + ShadowLine(e) + post;
    assert |ShadowLine(e)| == |ShadowLine(entries[i])|;
    var whole := ShadowText(entries);
    assert whole[|pre| + |ShadowLine(e)|..] == post;
  }

  /** As written, a longer hash for the first of two users runs over the
      start of the second user's line. */
  lemma LongerHashOverwritesNextEntry()
    ensures StoreInPlace([ShadowEntry("a", "x"), ShadowEntry("b", "y")], 0, "xyz") == "a:xyz\ny\n"
    ensures ShadowText([ShadowEntry("a", "xyz"), ShadowEntry("b", "y")]) == "a:xyz\nb:y\n"
  {
    var es := [ShadowEntry("a", "x"), ShadowEntry("b", "y")];
    assert es[1..][1..] == [];
    assert ShadowText(es) == "a:x\nb:y\n";
    assert es[..0] == [];
    var ns := [ShadowEntry("a", "xyz"), ShadowEntry("b", "y")];
    assert ns[1..][1..] == [];
  }

  /** The shadow file. */
  class ShadowFile {
    var entries: seq<ShadowEntry>

    constructor (entries: seq<ShadowEntry>)
      ensures this.entries == entries
    {
      this.entries := entries;
    }

    /** `find_password_info`: the first entry with exactly this name; None
        when the file cannot be locked or opened. */
    method FindPasswordInfo(name: string, access: bool) returns (r: Option<nat>)
      ensures r == if access then FirstNamed(entries, name) else None
    {
      if !access {
        return None;
      }
      var i := 0;
      while i < |entries|
        invariant 0 <= i <= |entries|
        invariant forall j :: 0 <= j < i ==> entries[j].name != name
      {
        if |entries[i].name| == |name| && entries[i].name == name {
          return Some(i);
        }
        i := i + 1;
      }
      r := None;
    }

    /** `store_password`: FATAL when the file cannot be locked or opened;
        otherwise the first entry whose name has the same length and text
        gets the new hash, and PASSWD_UPD_FAIL when there is none. */
    method StorePassword(user: string, pass: string, access: bool) returns (rc: int)
      modifies this
      ensures !access ==> rc == PASSWD_ERR_FATAL && entries == old(entries)
      ensures access && FirstNamed(old(entries), user).None? ==>
                rc == PASSWD_ERR_PASSWD_UPD_FAIL && entries == old(entries)
      ensures access && FirstNamed(old(entries), user).Some? ==>
                var i := FirstNamed(old(entries), user).value;
                rc == PASSWD_ERR_SUCCESS && entries == old(entries)[i := old(entries)[i].(pwdp := pass)]
    {
      if !access {
        return PASSWD_ERR_FATAL;
      }
      rc := PASSWD_ERR_PASSWD_UPD_FAIL;
      var i := 0;
      while i < |entries|
        invariant 0 <= i <= |entries| && entries == old(entries)
        invariant forall j :: 0 <= j < i ==> entries[j].name != user
      {
        if |entries[i].name| == |user| && entries[i].name == user {
          entries := entries[i := entries[i].(pwdp := pass)];
          return PASSWD_ERR_SUCCESS;
        }
        i := i + 1;
      }
    }

    /** `process_client_request`. `access` says whether
        `find_password_info` can lock and open the shadow file and
        `storeAccess` whether `store_password` can; `crypted` is crypt's
        result on the old password, `newHash` the hash of the new one,
        `commandOk` whether `system()` could run useradd or userdel (which
        then does its work). A failed userdel is reported, as intended. */
    method ProcessClientRequest(req: Option<Request>, access: bool, storeAccess: bool, crypted: Option<string>,
                                newHash: string, commandOk: bool)
      returns (rc: int)
      modifies this
      ensures req.None? ==> rc == PASSWD_ERR_FATAL && entries == old(entries)
      ensures (req.Some? && req.value.opCode != PASSWD_MSG_CHG_PASSWORD && req.value.opCode != PASSWD_MSG_ADD_USER &&
               req.value.opCode != PASSWD_MSG_DEL_USER) ==> rc == PASSWD_ERR_INVALID_OPCODE && entries == old(entries)
      ensures req.Some? && (req.value.opCode == PASSWD_MSG_CHG_PASSWORD || req.value.opCode == PASSWD_MSG_DEL_USER) &&
              (!access || FirstNamed(old(entries), req.value.username).None?) ==>
                rc == PASSWD_ERR_USER_NOT_FOUND && entries == old(entries)
      ensures req.Some? && req.value.opCode == PASSWD_MSG_ADD_USER && access &&
              FirstNamed(old(entries), req.value.username).Some? ==>
                rc == PASSWD_ERR_USER_EXIST && entries == old(entries)
      ensures req.Some? && req.value.opCode == PASSWD_MSG_CHG_PASSWORD && access &&
              FirstNamed(old(entries), req.value.username).Some? ==>
                var i := FirstNamed(old(entries), req.value.username).value;
                if !OldPasswordMatches(old(entries)[i].pwdp, crypted) then
                  rc == PASSWD_ERR_PASSWORD_NOT_MATCH && entries == old(entries)
                else if !storeAccess then
                  rc == PASSWD_ERR_FATAL && entries == old(entries)
                else
                  rc == PASSWD_ERR_SUCCESS && entries == old(entries)[i := old(entries)[i].(pwdp := newHash)]
      ensures req.Some? && req.value.opCode == PASSWD_MSG_ADD_USER &&
              (!access || FirstNamed(old(entries), req.value.username).None?) ==>
                var added := old(entries) + [ShadowEntry(req.value.username, "!")];
                if !commandOk then rc == PASSWD_ERR_USERADD_FAILED && entries == old(entries)
                else if !access then rc == PASSWD_ERR_USERADD_FAILED && entries == added
                else if !storeAccess then rc == PASSWD_ERR_FATAL && entries == old(entries)
                else rc == PASSWD_ERR_SUCCESS && entries == old(entries) + [ShadowEntry(req.value.username, newHash)]
      ensures req.Some? && req.value.opCode == PASSWD_MSG_DEL_USER && access &&
              FirstNamed(old(entries), req.value.username).Some? ==>
                rc == DeleteOutcome(commandOk) &&
                entries == if commandOk then WithoutUser(old(entries), req.value.username) else old(entries)
    {
      if req.None? {
        return PASSWD_ERR_FATAL;
      }
      var r := req.value;
      if r.opCode == PASSWD_MSG_CHG_PASSWORD {
        var found := FindPasswordInfo(r.username, access);
        if found.None? {
          return PASSWD_ERR_USER_NOT_FOUND;
        }
        if !OldPasswordMatches(entries[found.value].pwdp, crypted) {
          return PASSWD_ERR_PASSWORD_NOT_MATCH;
        }
        rc := StorePassword(r.username, newHash, storeAccess);
      } else if r.opCode == PASSWD_MSG_ADD_USER {
        var found := FindPasswordInfo(r.username, access);
        if found.Some? {
          return PASSWD_ERR_USER_EXIST;
        }
        if !commandOk {
          return PASSWD_ERR_USERADD_FAILED;
        }
        entries := entries + [ShadowEntry(r.username, "!")];
        if access {
          FirstNamedAppend(old(entries), ShadowEntry(r.username, "!"));
        }
        found := FindPasswordInfo(r.username, access);
        if found.None? {
          return PASSWD_ERR_USERADD_FAILED;
        }
        rc := StorePassword(r.username, newHash, storeAccess);
        if rc != PASSWD_ERR_SUCCESS {
          WithoutAddedUser(old(entries), ShadowEntry(r.username, "!"));
          entries := WithoutUser(entries, r.username);
        }
      } else if r.opCode == PASSWD_MSG_DEL_USER {
        var found := FindPasswordInfo(r.username, access);
        if found.None? {
          return PASSWD_ERR_USER_NOT_FOUND;
        }
        if !commandOk {
          return PASSWD_ERR_USERDEL_FAILED;
        }
        entries := WithoutUser(entries, r.username);
        rc := PASSWD_ERR_SUCCESS;
      } else {
        rc := PASSWD_ERR_INVALID_OPCODE;
      }
    }
  }

  lemma {:induction false} FirstNamedAppend(shadow: seq<ShadowEntry>, e: ShadowEntry)
    requires FirstNamed(shadow, e.name).None?
    ensures FirstNamed(shadow + [e], e.name) == Some(|shadow|)
  {
    if shadow != [] {
      assert (shadow + [e])[1..] == shadow[1..] + [e];
      FirstNamedAppend(shadow[1..], e);
    }
  }

  /** Removing a user that was just appended restores the file. */
  lemma {:induction false} WithoutAddedUser(shadow: seq<ShadowEntry>, e: ShadowEntry)
    requires FirstNamed(shadow, e.name).None?
    ensures WithoutUser(shadow + [e], e.name) == shadow
  {
    if shadow == [] {
      assert [e][1..] == [];
    } else {
      assert (shadow + [e])[1..] == shadow[1..] + [e];
      WithoutAddedUser(shadow[1..], e);
      assert shadow == [shadow[0]] + shadow[1..];
    }
  }

  /** After a successful password change, only the user's hash differs
      and a second lookup finds the new hash. */
  lemma ChangedPasswordIsFound(shadow: seq<ShadowEntry>, user: string, newHash: string)
    requires FirstNamed(shadow, user).Some?
    ensures var i := FirstNamed(shadow, user).value;
            var s := shadow[i := shadow[i].(pwdp := newHash)];
            FirstNamed(s, user) == Some(i) && s[i].pwdp == newHash &&
            forall j :: 0 <= j < |s| && j != i ==> s[j] == shadow[j]
  {
    var i := FirstNamed(shadow, user).value;
    var s := shadow[i := shadow[i].(pwdp := newHash)];
    assert s[i].name == user;
    assert forall j :: 0 <= j < i ==> s[j].name != user by {
      forall j | 0 <= j < i ensures s[j].name != user {
        assert s[j] == shadow[j];
      }
    }
  }
}
