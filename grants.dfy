/**
 * The privilege check behind CanSkipBinlog (instance.go:309-330).
 *
 * A grant allows `SET sql_log_bin` when it names one of five privileges
 * followed at once by a comma or whitespace: ALL PRIVILEGES ON *.*, SUPER,
 * SESSION_VARIABLES_ADMIN, SYSTEM_VARIABLES_ADMIN or MariaDB's
 * BINLOG ADMIN (with a space; MySQL's BINLOG_ADMIN does not qualify).
 * The Go code compiles this as a regular expression; here it is a direct
 * scan proved equal to the pattern's meaning.
 */
module Grants {
  import opened Text

  const SkipBinlogTokens: seq<string> :=
    ["ALL PRIVILEGES ON *.*", "SUPER", "SESSION_VARIABLES_ADMIN", "SYSTEM_VARIABLES_ADMIN", "BINLOG ADMIN"]

  /** The `[,\s]` that must follow a token. */
  predicate IsGrantSeparator(c: char) {
    c == ',' || IsSpace(c)
  }

  /** `token` occurs at `i` and the character after it is a separator. */
  predicate TokenAt(grant: string, token: string, i: int) {
    OccursAt(grant, token, i) && i + |token| < |grant| && IsGrantSeparator(grant[i + |token|])
  }

  /** What the pattern means: some token, followed by a separator, somewhere in the grant. */
  ghost predicate SkipBinlogGrant(grant: string) {
    exists t, i :: 0 <= t < |SkipBinlogTokens| && TokenAt(grant, SkipBinlogTokens[t], i)
  }

  /** Some token matches at position `i` (the five alternatives tried in turn). */
  function MatchAt(grant: string, i: nat): (b: bool)
    ensures b <==> exists t :: 0 <= t < |SkipBinlogTokens| && TokenAt(grant, SkipBinlogTokens[t], i)
  {
    var toks := SkipBinlogTokens;
    TokenAt(grant, toks[0], i) || TokenAt(grant, toks[1], i) || TokenAt(grant, toks[2], i) ||
    TokenAt(grant, toks[3], i) || TokenAt(grant, toks[4], i)
  }

  /** MatchString: try every starting position from `i` on. */
  function MatchFrom(grant: string, i: nat): (b: bool)
    ensures b <==> exists t, j :: i <= j && 0 <= t < |SkipBinlogTokens| && TokenAt(grant, SkipBinlogTokens[t], j)
    decreases |grant| - i
  {
    if i >= |grant| then
      assert forall t, j :: i <= j && 0 <= t < |SkipBinlogTokens| ==> !TokenAt(grant, SkipBinlogTokens[t], j);
      false
    else
      MatchAt(grant, i) || MatchFrom(grant, i + 1)
  }

  /** The scan from the start decides the pattern. */
  lemma MatchFromStart(grant: string)
    ensures MatchFrom(grant, 0) <==> SkipBinlogGrant(grant)
  {
    if SkipBinlogGrant(grant) {
      var t, i :| 0 <= t < |SkipBinlogTokens| && TokenAt(grant, SkipBinlogTokens[t], i);
      assert 0 <= i;
    }
  }

  /** Any list holding a qualifying grant qualifies. */
  ghost predicate AnySkipGrant(grants: seq<string>) {
    exists k :: 0 <= k < |grants| && SkipBinlogGrant(grants[k])
  }

  /** Adding a grant to a list never takes the privilege away, and a qualifying grant adds it. */
  lemma AppendGrant(grants: seq<string>, g: string)
    ensures AnySkipGrant(grants + [g]) <==> AnySkipGrant(grants) || SkipBinlogGrant(g)
  {
    var all := grants + [g];
    if AnySkipGrant(grants) {
      var k :| 0 <= k < |grants| && SkipBinlogGrant(grants[k]);
      assert all[k] == grants[k];
    }
    if SkipBinlogGrant(g) {
      assert all[|grants|] == g;
    }
    if AnySkipGrant(all) {
      var k :| 0 <= k < |all| && SkipBinlogGrant(all[k]);
      if k < |grants| {
        assert grants[k] == all[k];
      }
    }
  }

  /** The loop of CanSkipBinlog: the first grant the pattern matches decides. */
  method ScanGrants(grants: seq<string>) returns (found: bool)
    ensures found <==> AnySkipGrant(grants)
  {
    var i := 0;
    while i < |grants|
      invariant 0 <= i <= |grants|
      invariant forall j :: 0 <= j < i ==> !SkipBinlogGrant(grants[j])
    {
      MatchFromStart(grants[i]);
      if MatchFrom(grants[i], 0) {
        return true;
      }
      i := i + 1;
    }
    return false;
  }

  // ---------------------------------------------------------------------
  // Matching and non-matching grants

  /** A token followed by a separator matches wherever it stands. */
  lemma TokenFollowedBySeparator(pre: string, t: nat, post: string)
    requires t < |SkipBinlogTokens|
    requires post != [] && IsGrantSeparator(post[0])
    ensures SkipBinlogGrant(pre + SkipBinlogTokens[t] + post)
  {
    var token := SkipBinlogTokens[t];
    var g := pre + token + post;
    assert g[|pre|..|pre| + |token|] == token;
    assert g[|pre| + |token|] == post[0];
    assert TokenAt(g, token, |pre|);
  }

  /** A token with a character the grant lacks never matches. */
  lemma MissingCharNoToken(grant: string, t: nat, j: nat)
    requires t < |SkipBinlogTokens| && j < |SkipBinlogTokens[t]|
    requires SkipBinlogTokens[t][j] !in grant
    ensures forall i :: !TokenAt(grant, SkipBinlogTokens[t], i)
  {
    var token := SkipBinlogTokens[t];
    forall i | 0 <= i && i + |token| <= |grant| ensures !OccursAt(grant, token, i) {
      assert grant[i..i + |token|][j] == grant[i + j];
    }
  }

  /**
   * MySQL's BINLOG_ADMIN is not MariaDB's BINLOG ADMIN: a grant of it, with
   * no 'S', 'P' or other 'B' around it, does not allow skipping the binlog.
   */
  lemma BinlogUnderscoreAdmin(pre: string, post: string)
    requires 'S' !in pre && 'S' !in post && 'P' !in pre && 'P' !in post
    requires 'B' !in pre && 'B' !in post
    ensures !SkipBinlogGrant(pre + "BINLOG_ADMIN" + post)
  {
    var g := pre + "BINLOG_ADMIN" + post;
    assert 'S' !in "BINLOG_ADMIN" && 'P' !in "BINLOG_ADMIN";
    assert 'S' !in g && 'P' !in g;
    assert SkipBinlogTokens[0][4] == 'P';
    MissingCharNoToken(g, 0, 4);
    MissingCharNoToken(g, 1, 0);
    MissingCharNoToken(g, 2, 0);
    MissingCharNoToken(g, 3, 0);
    var token := SkipBinlogTokens[4];
    assert 'B' !in "INLOG_ADMIN";
    forall i | 0 <= i && i + |token| <= |g| ensures !OccursAt(g, token, i) {
      if i < |pre| {
        assert g[i] == pre[i] != 'B';
        assert g[i..i + |token|][0] == g[i];
      } else if i > |pre| {
        if i < |pre| + 12 {
          assert g[i] == "INLOG_ADMIN"[i - |pre| - 1] != 'B';
        } else {
          assert g[i] == post[i - |pre| - 12] != 'B';
        }
        assert g[i..i + |token|][0] == g[i];
      } else {
        assert g[i + 6] == '_';
        assert g[i..i + |token|][6] == g[i + 6];
      }
    }
  }

  // ---------------------------------------------------------------------
  // Grants from TestInstanceCanSkipBinlog

  lemma SuperGrantSkips()
    ensures SkipBinlogGrant("GRANT SUPER ON *.* TO 'foo'@'%'")
  {
    assert "GRANT SUPER ON *.* TO 'foo'@'%'" == "GRANT " + SkipBinlogTokens[1] + " ON *.* TO 'foo'@'%'";
    TokenFollowedBySeparator("GRANT ", 1, " ON *.* TO 'foo'@'%'");
  }

  lemma BinlogAdminGrantSkips()
    ensures SkipBinlogGrant("GRANT BINLOG ADMIN ON *.* TO 'foo'@'%'")
  {
    assert "GRANT BINLOG ADMIN ON *.* TO 'foo'@'%'" == "GRANT " + SkipBinlogTokens[4] + " ON *.* TO 'foo'@'%'";
    TokenFollowedBySeparator("GRANT ", 4, " ON *.* TO 'foo'@'%'");
  }

  lemma AllPrivilegesHead()
    ensures "GRANT ALL PRIVILEGES ON *.* TO `foo`@`%`" == "GRANT ALL PRIVI" + "LEGES ON *.* TO `foo`@`%`"
    ensures "GRANT ALL PRIVI" == "GRANT " + "ALL PRIVI"
  {
  }

  lemma AllPrivilegesTail()
    ensures SkipBinlogTokens[0] == "ALL PRIVI" + "LEGES ON *.*"
    ensures "LEGES ON *.* TO `foo`@`%`" == "LEGES ON *.*" + " TO `foo`@`%`"
  {
  }

  lemma AllPrivilegesPieces()
    ensures "GRANT ALL PRIVILEGES ON *.* TO `foo`@`%`" == "GRANT " + SkipBinlogTokens[0] + " TO `foo`@`%`"
  {
    AllPrivilegesHead();
    AllPrivilegesTail();
  }

  lemma AllPrivilegesGrantSkips()
    ensures SkipBinlogGrant("GRANT ALL PRIVILEGES ON *.* TO `foo`@`%`")
  {
    AllPrivilegesPieces();
    TokenFollowedBySeparator("GRANT ", 0, " TO `foo`@`%`");
  }

  /** No token matches anywhere: the grant does not qualify. */
  lemma NoTokenNoSkip(g: string)
    requires forall i :: !TokenAt(g, SkipBinlogTokens[0], i)
    requires forall i :: !TokenAt(g, SkipBinlogTokens[1], i)
    requires forall i :: !TokenAt(g, SkipBinlogTokens[2], i)
    requires forall i :: !TokenAt(g, SkipBinlogTokens[3], i)
    requires forall i :: !TokenAt(g, SkipBinlogTokens[4], i)
    ensures !SkipBinlogGrant(g)
  {
    forall t, i | 0 <= t < |SkipBinlogTokens| ensures !TokenAt(g, SkipBinlogTokens[t], i) {
      assert t == 0 || t == 1 || t == 2 || t == 3 || t == 4;
    }
  }

  lemma TellingCharacters()
    ensures SkipBinlogTokens[0][4] == 'P' && SkipBinlogTokens[1][2] == 'P'
    ensures SkipBinlogTokens[2][7] == '_' && SkipBinlogTokens[3][6] == '_'
    ensures SkipBinlogTokens[4][0] == 'B'
  {
  }

  lemma UsageGrantLacks()
    ensures 'P' !in "GRANT USAGE ON *.* TO `foo`@`%`"
    ensures '_' !in "GRANT USAGE ON *.* TO `foo`@`%`"
    ensures 'B' !in "GRANT USAGE ON *.* TO `foo`@`%`"
  {
  }

  /** A USAGE grant lacks every token's telling character. */
  lemma UsageGrantDoesNotSkip()
    ensures !SkipBinlogGrant("GRANT USAGE ON *.* TO `foo`@`%`")
  {
    UsageGrantLacks();
    TellingCharacters();
    MissingCharNoToken("GRANT USAGE ON *.* TO `foo`@`%`", 0, 4);
    MissingCharNoToken("GRANT USAGE ON *.* TO `foo`@`%`", 1, 2);
    MissingCharNoToken("GRANT USAGE ON *.* TO `foo`@`%`", 2, 7);
    MissingCharNoToken("GRANT USAGE ON *.* TO `foo`@`%`", 3, 6);
    MissingCharNoToken("GRANT USAGE ON *.* TO `foo`@`%`", 4, 0);
    NoTokenNoSkip("GRANT USAGE ON *.* TO `foo`@`%`");
  }

  lemma BinlogUnderscorePieces()
    ensures "GRANT BINLOG_ADMIN ON *.* TO 'foo'@'%'" == "GRANT " + "BINLOG_ADMIN" + " ON *.* TO 'foo'@'%'"
  {
  }

  lemma GrantOnAllLacks()
    ensures 'S' !in "GRANT " && 'P' !in "GRANT " && 'B' !in "GRANT "
    ensures 'S' !in " ON *.* TO 'foo'@'%'" && 'P' !in " ON *.* TO 'foo'@'%'"
    ensures 'B' !in " ON *.* TO 'foo'@'%'"
  {
  }

  /** BINLOG_ADMIN, MySQL's privilege, granted on its own. */
  lemma BinlogUnderscoreGrantDoesNotSkip()
    ensures !SkipBinlogGrant("GRANT BINLOG_ADMIN ON *.* TO 'foo'@'%'")
  {
    GrantOnAllLacks();
    BinlogUnderscoreAdmin("GRANT ", " ON *.* TO 'foo'@'%'");
    BinlogUnderscorePieces();
  }

  /**
   * ALL PRIVILEGES ON *.* holds two stars two places apart; a grant whose
   * only star stands where the second half begins has no such pair.
   */
  lemma NoAllPrivilegesOnAll(a: string, b: string, i: int)
    requires '*' !in a && b != [] && '*' !in b[1..]
    ensures !OccursAt(a + b, SkipBinlogTokens[0], i)
  {
    var g, token := a + b, SkipBinlogTokens[0];
    assert token[18] == '*' && token[20] == '*';
    if 0 <= i && i + |token| <= |g| {
      if i + 18 < |a| {
        assert g[i..i + |token|][18] == a[i + 18];
      } else {
        assert g[i..i + |token|][20] == b[1..][i + 20 - |a| - 1];
      }
    }
  }

  lemma SchemaGrantPieces()
    ensures "GRANT ALL PRIVILEGES ON `blarg`.* TO `foo`@`%`" ==
            "GRANT ALL PRIVILEGES ON `blarg`." + "* TO `foo`@`%`"
    ensures '*' !in "GRANT ALL PRIVILEGES ON `blarg`." && '*' !in "* TO `foo`@`%`"[1..]
  {
  }

  lemma SchemaGrantLacks()
    ensures 'U' !in "GRANT ALL PRIVILEGES ON `blarg`.* TO `foo`@`%`"
    ensures '_' !in "GRANT ALL PRIVILEGES ON `blarg`.* TO `foo`@`%`"
    ensures 'B' !in "GRANT ALL PRIVILEGES ON `blarg`.* TO `foo`@`%`"
  {
    SchemaGrantPieces();
    var a, b := "GRANT ALL PRIVILEGES ON `blarg`.", "* TO `foo`@`%`";
    assert 'U' !in a && '_' !in a && 'B' !in a;
    assert 'U' !in b && '_' !in b && 'B' !in b;
  }

  /** ALL PRIVILEGES on a single schema, not on *.*, does not qualify. */
  lemma SchemaAllPrivilegesGrantDoesNotSkip()
    ensures !SkipBinlogGrant("GRANT ALL PRIVILEGES ON `blarg`.* TO `foo`@`%`")
  {
    var g := "GRANT ALL PRIVILEGES ON `blarg`.* TO `foo`@`%`";
    SchemaGrantPieces();
    SchemaGrantLacks();
    TellingCharacters();
    assert SkipBinlogTokens[1][1] == 'U';
    forall i ensures !TokenAt(g, SkipBinlogTokens[0], i) {
      NoAllPrivilegesOnAll("GRANT ALL PRIVILEGES ON `blarg`.", "* TO `foo`@`%`", i);
    }
    MissingCharNoToken(g, 1, 1);
    MissingCharNoToken(g, 2, 7);
    MissingCharNoToken(g, 3, 6);
    MissingCharNoToken(g, 4, 0);
    NoTokenNoSkip(g);
  }

  /**
   * The long SELECT, ... list of instance_test.go:373, written around its
   * SUPER, which a comma follows.
   */
  const SuperListBefore: string := "GRANT SELECT, INSERT, UPDATE, DELETE, CREATE, DROP, RELOAD, SHUTDOWN, PROCESS, FILE, REFERENCES, INDEX, ALTER, SHOW DATABASES, "
  const SuperListAfter: string := "," + " CREATE TEMPORARY TABLES, LOCK TABLES, EXECUTE, REPLICATION SLAVE, REPLICATION CLIENT, CREATE VIEW, SHOW VIEW, CREATE ROUTINE, ALTER ROUTINE, CREATE USER, EVENT, TRIGGER, CREATE TABLESPACE, CREATE ROLE, DROP ROLE ON *.* TO `foo`@`%`"
  const SuperListGrant: string := SuperListBefore + "SUPER" + SuperListAfter

  /** SUPER in the middle of a privilege list, followed by a comma. */
  lemma SuperListGrantSkips()
    ensures SkipBinlogGrant(SuperListGrant)
  {
    assert SkipBinlogTokens[1] == "SUPER";
    assert SuperListAfter[0] == ',';
    TokenFollowedBySeparator(SuperListBefore, 1, SuperListAfter);
  }

  /**
   * The dynamic privileges of instance_test.go:374, written around its
   * SESSION_VARIABLES_ADMIN, which a comma follows.
   */
  const DynamicListBefore: string := "GRANT APPLICATION_PASSWORD_ADMIN,AUDIT_ADMIN,BACKUP_ADMIN,BINLOG_ADMIN,BINLOG_ENCRYPTION_ADMIN,CLONE_ADMIN,CONNECTION_ADMIN,ENCRYPTION_KEY_ADMIN,GROUP_REPLICATION_ADMIN,INNODB_REDO_LOG_ARCHIVE,PERSIST_RO_VARIABLES_ADMIN,REPLICATION_APPLIER,REPLICATION_SLAVE_ADMIN,RESOURCE_GROUP_ADMIN,RESOURCE_GROUP_USER,ROLE_ADMIN,SERVICE_CONNECTION_ADMIN,"
  const DynamicListAfter: string := "," + "SET_USER_ID,SYSTEM_USER,SYSTEM_VARIABLES_ADMIN,TABLE_ENCRYPTION_ADMIN,XA_RECOVER_ADMIN ON *.* TO `foo`@`%`"
  const DynamicPrivilegesGrant: string := DynamicListBefore + "SESSION_VARIABLES_ADMIN" + DynamicListAfter

  /** SESSION_VARIABLES_ADMIN among MySQL 8.0's dynamic privileges, followed by a comma. */
  lemma DynamicPrivilegesGrantSkips()
    ensures SkipBinlogGrant(DynamicPrivilegesGrant)
  {
    assert SkipBinlogTokens[2] == "SESSION_VARIABLES_ADMIN";
    assert DynamicListAfter[0] == ',';
    TokenFollowedBySeparator(DynamicListBefore, 2, DynamicListAfter);
  }

  /** The PROXY grant of instance_test.go:362, in pieces. */
  const ProxyGrant: string := "GRANT PROXY " + "ON ''@''" + " TO 'foo'@'%'" + " WITH GRANT OPTION"

  lemma ProxyPiece1Lacks()
    ensures '*' !in "GRANT PROXY " && 'U' !in "GRANT PROXY " && '_' !in "GRANT PROXY " && 'B' !in "GRANT PROXY "
  {
  }

  lemma ProxyPiece2Lacks()
    ensures '*' !in "ON ''@''" && 'U' !in "ON ''@''" && '_' !in "ON ''@''" && 'B' !in "ON ''@''"
  {
  }

  lemma ProxyPiece3Lacks()
    ensures '*' !in " TO 'foo'@'%'" && 'U' !in " TO 'foo'@'%'" && '_' !in " TO 'foo'@'%'" && 'B' !in " TO 'foo'@'%'"
  {
  }

  lemma ProxyPiece4Lacks()
    ensures '*' !in " WITH GRANT OPTION" && 'U' !in " WITH GRANT OPTION" && '_' !in " WITH GRANT OPTION" && 'B' !in " WITH GRANT OPTION"
  {
  }

  lemma ProxyGrantLacks()
    ensures '*' !in ProxyGrant && 'U' !in ProxyGrant && '_' !in ProxyGrant && 'B' !in ProxyGrant
  {
    ProxyPiece1Lacks();
    ProxyPiece2Lacks();
    ProxyPiece3Lacks();
    ProxyPiece4Lacks();
  }

  /** GRANT PROXY names none of the five privileges. */
  lemma ProxyGrantDoesNotSkip()
    ensures !SkipBinlogGrant(ProxyGrant)
  {
    ProxyGrantLacks();
    TellingCharacters();
    assert SkipBinlogTokens[0][18] == '*' && SkipBinlogTokens[1][1] == 'U';
    MissingCharNoToken(ProxyGrant, 0, 18);
    MissingCharNoToken(ProxyGrant, 1, 1);
    MissingCharNoToken(ProxyGrant, 2, 7);
    MissingCharNoToken(ProxyGrant, 3, 6);
    MissingCharNoToken(ProxyGrant, 4, 0);
    NoTokenNoSkip(ProxyGrant);
  }

  /** A two-grant list qualifies exactly when one of its grants does. */
  lemma TwoGrants(a: string, b: string)
    ensures AnySkipGrant([a, b]) <==> SkipBinlogGrant(a) || SkipBinlogGrant(b)
  {
    var gs := [a, b];
    assert gs[0] == a && gs[1] == b;
    if AnySkipGrant(gs) {
      var k :| 0 <= k < |gs| && SkipBinlogGrant(gs[k]);
      assert k == 0 || k == 1;
    }
  }

  /** The rows of TestInstanceCanSkipBinlog, over short representatives of its grant lists. */
  lemma CanSkipBinlogEmpty()
    ensures !AnySkipGrant([])
  {
  }

  lemma CanSkipBinlogWithoutPrivilege()
    ensures !AnySkipGrant(["GRANT USAGE ON *.* TO `foo`@`%`", "GRANT BINLOG_ADMIN ON *.* TO 'foo'@'%'"])
  {
    UsageGrantDoesNotSkip();
    BinlogUnderscoreGrantDoesNotSkip();
    TwoGrants("GRANT USAGE ON *.* TO `foo`@`%`", "GRANT BINLOG_ADMIN ON *.* TO 'foo'@'%'");
  }

  lemma CanSkipBinlogSchemaPrivileges()
    ensures !AnySkipGrant(["GRANT USAGE ON *.* TO `foo`@`%`", "GRANT ALL PRIVILEGES ON `blarg`.* TO `foo`@`%`"])
  {
    UsageGrantDoesNotSkip();
    SchemaAllPrivilegesGrantDoesNotSkip();
    TwoGrants("GRANT USAGE ON *.* TO `foo`@`%`", "GRANT ALL PRIVILEGES ON `blarg`.* TO `foo`@`%`");
  }

  lemma CanSkipBinlogAllPrivileges()
    ensures AnySkipGrant(["GRANT USAGE ON *.* TO `foo`@`%`", "GRANT ALL PRIVILEGES ON *.* TO `foo`@`%`"])
  {
    AllPrivilegesGrantSkips();
    TwoGrants("GRANT USAGE ON *.* TO `foo`@`%`", "GRANT ALL PRIVILEGES ON *.* TO `foo`@`%`");
  }

  lemma CanSkipBinlogBinlogAdmin()
    ensures AnySkipGrant(["GRANT USAGE ON *.* TO `foo`@`%`", "GRANT BINLOG ADMIN ON *.* TO 'foo'@'%'"])
  {
    BinlogAdminGrantSkips();
    TwoGrants("GRANT USAGE ON *.* TO `foo`@`%`", "GRANT BINLOG ADMIN ON *.* TO 'foo'@'%'");
  }

  lemma CanSkipBinlogSuper()
    ensures AnySkipGrant(["GRANT USAGE ON *.* TO `foo`@`%`", "GRANT SUPER ON *.* TO 'foo'@'%'"])
  {
    SuperGrantSkips();
    TwoGrants("GRANT USAGE ON *.* TO `foo`@`%`", "GRANT SUPER ON *.* TO 'foo'@'%'");
  }
}
