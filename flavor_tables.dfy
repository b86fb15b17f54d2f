/**
 * The table-driven cases of flavor_test.go, each proved about the model.
 *
 * Keyword searches over literal text are shown one keyword at a time, on
 * pieces of the text of at most fifteen characters: an occurrence by a
 * case-insensitive match of one piece, an absence by a letter of the
 * keyword that no piece has in either case.
 */
module FlavorTables {
  import opened Outcomes
  import opened Text
  import opened Flavors

  // ---------------------------------------------------------------------
  // Keyword facts about the comments and bases used by the tests

  lemma MySQLCommunityGPLPieces()
    ensures "MySQL Community Server (GPL)" == "MySQL" + " Community S" + "erver (GPL)"
  {
    assert "MySQL Community Server (GPL)" == "MySQL Community S" + "erver (GPL)";
  }

  lemma MySQLCommunityGPLLacksA()
    ensures LacksFolded("MySQL Community Server (GPL)", 'a')
  {
    FoldLacksSpan("MySQL", 'a', 0);
    FoldLacksSpan(" Community S", 'a', 0);
    FoldLacksSpan("erver (GPL)", 'a', 0);
    LacksFoldedJoin("MySQL", " Community S", 'a');
    LacksFoldedJoin("MySQL" + " Community S", "erver (GPL)", 'a');
    MySQLCommunityGPLPieces();
  }

  lemma MySQLCommunityGPLNamesMySQL()
    ensures Contains(ToLower("MySQL Community Server (GPL)"), "mysql")
  {
    FoldedOccurrence("", "MySQL", "mysql");
    assert "" + "MySQL" == "MySQL";
    FoldedGrow("MySQL", " Community S", "mysql");
    FoldedGrow("MySQL" + " Community S", "erver (GPL)", "mysql");
    MySQLCommunityGPLPieces();
  }

  lemma VendorOfMySQLCommunityGPL()
    ensures ParseVendor("MySQL Community Server (GPL)") == MySQL
  {
    MySQLCommunityGPLLacksA();
    MySQLCommunityGPLNamesMySQL();
    FoldedAbsence("MySQL Community Server (GPL)", "mariadb", 1);
    FoldedAbsence("MySQL Community Server (GPL)", "percona", 6);
  }

  lemma MySQLCommunityDashGPLPieces()
    ensures "MySQL Community Server - GPL" == "MySQL" + " Community S" + "erver - GPL"
  {
    assert "MySQL Community Server - GPL" == "MySQL Community S" + "erver - GPL";
  }

  lemma MySQLCommunityDashGPLLacksA()
    ensures LacksFolded("MySQL Community Server - GPL", 'a')
  {
    FoldLacksSpan("MySQL", 'a', 0);
    FoldLacksSpan(" Community S", 'a', 0);
    FoldLacksSpan("erver - GPL", 'a', 0);
    LacksFoldedJoin("MySQL", " Community S", 'a');
    LacksFoldedJoin("MySQL" + " Community S", "erver - GPL", 'a');
    MySQLCommunityDashGPLPieces();
  }

  lemma MySQLCommunityDashGPLNamesMySQL()
    ensures Contains(ToLower("MySQL Community Server - GPL"), "mysql")
  {
    FoldedOccurrence("", "MySQL", "mysql");
    assert "" + "MySQL" == "MySQL";
    FoldedGrow("MySQL", " Community S", "mysql");
    FoldedGrow("MySQL" + " Community S", "erver - GPL", "mysql");
    MySQLCommunityDashGPLPieces();
  }

  lemma VendorOfMySQLCommunityDashGPL()
    ensures ParseVendor("MySQL Community Server - GPL") == MySQL
  {
    MySQLCommunityDashGPLLacksA();
    MySQLCommunityDashGPLNamesMySQL();
    FoldedAbsence("MySQL Community Server - GPL", "mariadb", 1);
    FoldedAbsence("MySQL Community Server - GPL", "percona", 6);
  }

  lemma RandomTextMySQLJoin1()
    ensures "some random text MYSQL" == "some random text " + "MYSQL"
  {
  }

  lemma RandomTextMySQLJoin2()
    ensures "some random text MYSQL some random" == "some random text MYSQL" + " some random"
  {
  }

  lemma RandomTextMySQLJoin3()
    ensures "some random text MYSQL some random text" == "some random text MYSQL some random" + " text"
  {
  }

  lemma RandomTextMySQLPieces()
    ensures "some random text MYSQL some random text" == "some random " + "text " + "MYSQL" + " some random" + " text"
  {
    RandomTextMySQLJoin1();
    RandomTextMySQLJoin2();
    RandomTextMySQLJoin3();
  }

  lemma RandomTextMySQLLacksI()
    ensures LacksFolded("some random text MYSQL some random text", 'i')
  {
    FoldLacksSpan("some random ", 'i', 0);
    FoldLacksSpan("text ", 'i', 0);
    FoldLacksSpan("MYSQL", 'i', 0);
    FoldLacksSpan(" some random", 'i', 0);
    FoldLacksSpan(" text", 'i', 0);
    LacksFoldedJoin("some random ", "text ", 'i');
    LacksFoldedJoin("some random " + "text ", "MYSQL", 'i');
    LacksFoldedJoin("some random " + "text " + "MYSQL", " some random", 'i');
    LacksFoldedJoin("some random " + "text " + "MYSQL" + " some random", " text", 'i');
    RandomTextMySQLPieces();
  }

  lemma RandomTextMySQLLacksP()
    ensures LacksFolded("some random text MYSQL some random text", 'p')
  {
    FoldLacksSpan("some random ", 'p', 0);
    FoldLacksSpan("text ", 'p', 0);
    FoldLacksSpan("MYSQL", 'p', 0);
    FoldLacksSpan(" some random", 'p', 0);
    FoldLacksSpan(" text", 'p', 0);
    LacksFoldedJoin("some random ", "text ", 'p');
    LacksFoldedJoin("some random " + "text ", "MYSQL", 'p');
    LacksFoldedJoin("some random " + "text " + "MYSQL", " some random", 'p');
    LacksFoldedJoin("some random " + "text " + "MYSQL" + " some random", " text", 'p');
    RandomTextMySQLPieces();
  }

  lemma RandomTextMySQLNamesMySQL()
    ensures Contains(ToLower("some random text MYSQL some random text"), "mysql")
  {
    FoldedOccurrence("some random " + "text ", "MYSQL", "mysql");
    FoldedGrow("some random " + "text " + "MYSQL", " some random", "mysql");
    FoldedGrow("some random " + "text " + "MYSQL" + " some random", " text", "mysql");
    RandomTextMySQLPieces();
  }

  lemma VendorOfRandomTextMySQL()
    ensures ParseVendor("some random text MYSQL some random text") == MySQL
  {
    RandomTextMySQLLacksI();
    RandomTextMySQLLacksP();
    RandomTextMySQLNamesMySQL();
    FoldedAbsence("some random text MYSQL some random text", "mariadb", 3);
    FoldedAbsence("some random text MYSQL some random text", "percona", 0);
  }

  lemma PerconaRelease84Join1()
    ensures "Percona Server (GPL), Release 8" == "Percona Server (GPL" + "), Release 8"
  {
  }

  lemma PerconaRelease84Join2()
    ensures "Percona Server (GPL), Release 84.0, Revisio" == "Percona Server (GPL), Release 8" + "4.0, Revisio"
  {
  }

  lemma PerconaRelease84Join3()
    ensures "Percona Server (GPL), Release 84.0, Revision 47234b3" == "Percona Server (GPL), Release 84.0, Revisio" + "n 47234b3"
  {
  }

  lemma PerconaRelease84Pieces()
    ensures "Percona Server (GPL), Release 84.0, Revision 47234b3" == "Percona" + " Server (GPL" + "), Release 8" + "4.0, Revisio" + "n 47234b3"
  {
    PerconaRelease84Join1();
    PerconaRelease84Join2();
    PerconaRelease84Join3();
  }

  lemma PerconaRelease84LacksM()
    ensures LacksFolded("Percona Server (GPL), Release 84.0, Revision 47234b3", 'm')
  {
    FoldLacksSpan("Percona", 'm', 0);
    FoldLacksSpan(" Server (GPL", 'm', 0);
    FoldLacksSpan("), Release 8", 'm', 0);
    FoldLacksSpan("4.0, Revisio", 'm', 0);
    FoldLacksSpan("n 47234b3", 'm', 0);
    LacksFoldedJoin("Percona", " Server (GPL", 'm');
    LacksFoldedJoin("Percona" + " Server (GPL", "), Release 8", 'm');
    LacksFoldedJoin("Percona" + " Server (GPL" + "), Release 8", "4.0, Revisio", 'm');
    LacksFoldedJoin("Percona" + " Server (GPL" + "), Release 8" + "4.0, Revisio", "n 47234b3", 'm');
    PerconaRelease84Pieces();
  }

  lemma PerconaRelease84NamesPercona()
    ensures Contains(ToLower("Percona Server (GPL), Release 84.0, Revision 47234b3"), "percona")
  {
    FoldedOccurrence("", "Percona", "percona");
    assert "" + "Percona" == "Percona";
    FoldedGrow("Percona", " Server (GPL", "percona");
    FoldedGrow("Percona" + " Server (GPL", "), Release 8", "percona");
    FoldedGrow("Percona" + " Server (GPL" + "), Release 8", "4.0, Revisio", "percona");
    FoldedGrow("Percona" + " Server (GPL" + "), Release 8" + "4.0, Revisio", "n 47234b3", "percona");
    PerconaRelease84Pieces();
  }

  lemma VendorOfPerconaRelease84()
    ensures ParseVendor("Percona Server (GPL), Release 84.0, Revision 47234b3") == Percona
  {
    PerconaRelease84LacksM();
    PerconaRelease84NamesPercona();
    FoldedAbsence("Percona Server (GPL), Release 84.0, Revision 47234b3", "mariadb", 0);
  }

  lemma PerconaRelease22Join1()
    ensures "Percona Server (GPL), Release '" == "Percona Server (GPL" + "), Release '"
  {
  }

  lemma PerconaRelease22Join2()
    ensures "Percona Server (GPL), Release '22', Revisio" == "Percona Server (GPL), Release '" + "22', Revisio"
  {
  }

  lemma PerconaRelease22Join3()
    ensures "Percona Server (GPL), Release '22', Revision 'f62d93c'" == "Percona Server (GPL), Release '22', Revisio" + "n 'f62d93c'"
  {
  }

  lemma PerconaRelease22Pieces()
    ensures "Percona Server (GPL), Release '22', Revision 'f62d93c'" == "Percona" + " Server (GPL" + "), Release '" + "22', Revisio" + "n 'f62d93c'"
  {
    PerconaRelease22Join1();
    PerconaRelease22Join2();
    PerconaRelease22Join3();
  }

  lemma PerconaRelease22LacksM()
    ensures LacksFolded("Percona Server (GPL), Release '22', Revision 'f62d93c'", 'm')
  {
    FoldLacksSpan("Percona", 'm', 0);
    FoldLacksSpan(" Server (GPL", 'm', 0);
    FoldLacksSpan("), Release '", 'm', 0);
    FoldLacksSpan("22', Revisio", 'm', 0);
    FoldLacksSpan("n 'f62d93c'", 'm', 0);
    LacksFoldedJoin("Percona", " Server (GPL", 'm');
    LacksFoldedJoin("Percona" + " Server (GPL", "), Release '", 'm');
    LacksFoldedJoin("Percona" + " Server (GPL" + "), Release '", "22', Revisio", 'm');
    LacksFoldedJoin("Percona" + " Server (GPL" + "), Release '" + "22', Revisio", "n 'f62d93c'", 'm');
    PerconaRelease22Pieces();
  }

  lemma PerconaRelease22NamesPercona()
    ensures Contains(ToLower("Percona Server (GPL), Release '22', Revision 'f62d93c'"), "percona")
  {
    FoldedOccurrence("", "Percona", "percona");
    assert "" + "Percona" == "Percona";
    FoldedGrow("Percona", " Server (GPL", "percona");
    FoldedGrow("Percona" + " Server (GPL", "), Release '", "percona");
    FoldedGrow("Percona" + " Server (GPL" + "), Release '", "22', Revisio", "percona");
    FoldedGrow("Percona" + " Server (GPL" + "), Release '" + "22', Revisio", "n 'f62d93c'", "percona");
    PerconaRelease22Pieces();
  }

  lemma VendorOfPerconaRelease22()
    ensures ParseVendor("Percona Server (GPL), Release '22', Revision 'f62d93c'") == Percona
  {
    PerconaRelease22LacksM();
    PerconaRelease22NamesPercona();
    FoldedAbsence("Percona Server (GPL), Release '22', Revision 'f62d93c'", "mariadb", 0);
  }

  lemma PerconaRelease23Join1()
    ensures "Percona Server (GPL), Release 2" == "Percona Server (GPL" + "), Release 2"
  {
  }

  lemma PerconaRelease23Join2()
    ensures "Percona Server (GPL), Release 23, Revision " == "Percona Server (GPL), Release 2" + "3, Revision "
  {
  }

  lemma PerconaRelease23Join3()
    ensures "Percona Server (GPL), Release 23, Revision 500fcf5" == "Percona Server (GPL), Release 23, Revision " + "500fcf5"
  {
  }

  lemma PerconaRelease23Pieces()
    ensures "Percona Server (GPL), Release 23, Revision 500fcf5" == "Percona" + " Server (GPL" + "), Release 2" + "3, Revision " + "500fcf5"
  {
    PerconaRelease23Join1();
    PerconaRelease23Join2();
    PerconaRelease23Join3();
  }

  lemma PerconaRelease23LacksM()
    ensures LacksFolded("Percona Server (GPL), Release 23, Revision 500fcf5", 'm')
  {
    FoldLacksSpan("Percona", 'm', 0);
    FoldLacksSpan(" Server (GPL", 'm', 0);
    FoldLacksSpan("), Release 2", 'm', 0);
    FoldLacksSpan("3, Revision ", 'm', 0);
    FoldLacksSpan("500fcf5", 'm', 0);
    LacksFoldedJoin("Percona", " Server (GPL", 'm');
    LacksFoldedJoin("Percona" + " Server (GPL", "), Release 2", 'm');
    LacksFoldedJoin("Percona" + " Server (GPL" + "), Release 2", "3, Revision ", 'm');
    LacksFoldedJoin("Percona" + " Server (GPL" + "), Release 2" + "3, Revision ", "500fcf5", 'm');
    PerconaRelease23Pieces();
  }

  lemma PerconaRelease23NamesPercona()
    ensures Contains(ToLower("Percona Server (GPL), Release 23, Revision 500fcf5"), "percona")
  {
    FoldedOccurrence("", "Percona", "percona");
    assert "" + "Percona" == "Percona";
    FoldedGrow("Percona", " Server (GPL", "percona");
    FoldedGrow("Percona" + " Server (GPL", "), Release 2", "percona");
    FoldedGrow("Percona" + " Server (GPL" + "), Release 2", "3, Revision ", "percona");
    FoldedGrow("Percona" + " Server (GPL" + "), Release 2" + "3, Revision ", "500fcf5", "percona");
    PerconaRelease23Pieces();
  }

  lemma VendorOfPerconaRelease23()
    ensures ParseVendor("Percona Server (GPL), Release 23, Revision 500fcf5") == Percona
  {
    PerconaRelease23LacksM();
    PerconaRelease23NamesPercona();
    FoldedAbsence("Percona Server (GPL), Release 23, Revision 500fcf5", "mariadb", 0);
  }

  lemma MariaDBOrgPieces()
    ensures "mariadb.org binary distribution" == "mariadb" + ".org binary " + "distribution"
  {
    assert "mariadb.org binary distribution" == "mariadb.org binary " + "distribution";
  }

  lemma MariaDBOrgNamesMariaDB()
    ensures Contains(ToLower("mariadb.org binary distribution"), "mariadb")
  {
    FoldedOccurrence("", "mariadb", "mariadb");
    assert "" + "mariadb" == "mariadb";
    FoldedGrow("mariadb", ".org binary ", "mariadb");
    FoldedGrow("mariadb" + ".org binary ", "distribution", "mariadb");
    MariaDBOrgPieces();
  }

  lemma VendorOfMariaDBOrg()
    ensures ParseVendor("mariadb.org binary distribution") == MariaDB
  {
    MariaDBOrgNamesMariaDB();
  }

  lemma MariaDBServerPieces()
    ensures "MariaDB Server" == "MariaDB" + " Server"
  {
  }

  lemma MariaDBServerNamesMariaDB()
    ensures Contains(ToLower("MariaDB Server"), "mariadb")
  {
    FoldedOccurrence("", "MariaDB", "mariadb");
    assert "" + "MariaDB" == "MariaDB";
    FoldedGrow("MariaDB", " Server", "mariadb");
    MariaDBServerPieces();
  }

  lemma VendorOfMariaDBServer()
    ensures ParseVendor("MariaDB Server") == MariaDB
  {
    MariaDBServerNamesMariaDB();
  }

  lemma SourceDistributionPieces()
    ensures "Source distribution" == "Source distr" + "ibution"
  {
  }

  lemma SourceDistributionLacksM()
    ensures LacksFolded("Source distribution", 'm')
  {
    FoldLacksSpan("Source distr", 'm', 0);
    FoldLacksSpan("ibution", 'm', 0);
    LacksFoldedJoin("Source distr", "ibution", 'm');
    SourceDistributionPieces();
  }

  lemma SourceDistributionLacksP()
    ensures LacksFolded("Source distribution", 'p')
  {
    FoldLacksSpan("Source distr", 'p', 0);
    FoldLacksSpan("ibution", 'p', 0);
    LacksFoldedJoin("Source distr", "ibution", 'p');
    SourceDistributionPieces();
  }

  lemma VendorOfSourceDistribution()
    ensures ParseVendor("Source distribution") == Unknown
  {
    SourceDistributionLacksM();
    SourceDistributionLacksP();
    FoldedAbsence("Source distribution", "mariadb", 0);
    FoldedAbsence("Source distribution", "percona", 0);
    FoldedAbsence("Source distribution", "mysql", 0);
  }

  lemma VendorOfUbuntu()
    ensures ParseVendor("(Ubuntu)") == Unknown
  {
    FoldLacksSpan("(Ubuntu)", 'm', 0);
    FoldLacksSpan("(Ubuntu)", 'p', 0);
    FoldedAbsence("(Ubuntu)", "mariadb", 0);
    FoldedAbsence("(Ubuntu)", "percona", 0);
    FoldedAbsence("(Ubuntu)", "mysql", 0);
  }

  lemma VendorOfUbuntu1804()
    ensures ParseVendor("Ubuntu 18.04") == Unknown
  {
    FoldLacksSpan("Ubuntu 18.04", 'm', 0);
    FoldLacksSpan("Ubuntu 18.04", 'p', 0);
    FoldedAbsence("Ubuntu 18.04", "mariadb", 0);
    FoldedAbsence("Ubuntu 18.04", "percona", 0);
    FoldedAbsence("Ubuntu 18.04", "mysql", 0);
  }

  lemma VendorOfHomebrew()
    ensures ParseVendor("Homebrew") == Unknown
  {
    FoldLacksSpan("Homebrew", 'a', 0);
    FoldLacksSpan("Homebrew", 'p', 0);
    FoldLacksSpan("Homebrew", 'y', 0);
    FoldedAbsence("Homebrew", "mariadb", 1);
    FoldedAbsence("Homebrew", "percona", 0);
    FoldedAbsence("Homebrew", "mysql", 1);
  }

  lemma VendorOfWebScaleSQL()
    ensures ParseVendor("webscalesql") == Unknown
  {
    FoldLacksSpan("webscalesql", 'm', 0);
    FoldLacksSpan("webscalesql", 'p', 0);
    FoldedAbsence("webscalesql", "mariadb", 0);
    FoldedAbsence("webscalesql", "percona", 0);
    FoldedAbsence("webscalesql", "mysql", 0);
  }

  lemma MariaDBLogBuildPieces()
    ensures "10.3.8-MariaDB-log" == "10.3.8-" + "MariaDB" + "-log"
  {
    assert "10.3.8-MariaDB-log" == "10.3.8-MariaDB" + "-log";
  }

  lemma MariaDBLogBuildNamesMariaDB()
    ensures Contains(ToLower("10.3.8-MariaDB-log"), "mariadb")
  {
    FoldedOccurrence("10.3.8-", "MariaDB", "mariadb");
    FoldedGrow("10.3.8-" + "MariaDB", "-log", "mariadb");
    MariaDBLogBuildPieces();
  }

  lemma VendorOfMariaDBLogBuild()
    ensures ParseVendor("10.3.8-MariaDB-log") == MariaDB
  {
    MariaDBLogBuildNamesMariaDB();
  }

  // ---------------------------------------------------------------------
  // TestParseVendor

  /** The rows of TestParseVendor. */
  lemma ParseVendorTable()
    ensures ParseVendor("MySQL Community Server (GPL)") == MySQL
    ensures ParseVendor("some random text MYSQL some random text") == MySQL
    ensures ParseVendor("Percona Server (GPL), Release 84.0, Revision 47234b3") == Percona
    ensures ParseVendor("Percona Server (GPL), Release '22', Revision 'f62d93c'") == Percona
    ensures ParseVendor("mariadb.org binary distribution") == MariaDB
    ensures ParseVendor("Source distribution") == Unknown
  {
    VendorOfMySQLCommunityGPL();
    VendorOfRandomTextMySQL();
    VendorOfPerconaRelease84();
    VendorOfPerconaRelease22();
    VendorOfMariaDBOrg();
    VendorOfSourceDistribution();
  }

  // ---------------------------------------------------------------------
  // TestParseVersion

  lemma ParseVersionPlain5640()
    ensures ParseVersion("5.6.40") == Triple(5, 6, 40)
  {
    ParseVersionRoundTrip(5, 6, 40, "");
    assert VersionText(5, 6, 40) + "" == "5.6.40";
  }

  lemma ParseVersionPlain5722()
    ensures ParseVersion("5.7.22") == Triple(5, 7, 22)
  {
    ParseVersionRoundTrip(5, 7, 22, "");
    assert VersionText(5, 7, 22) + "" == "5.7.22";
  }

  lemma ParseVersionPercona5640()
    ensures ParseVersion("5.6.40-84.0") == Triple(5, 6, 40)
  {
    ParseVersionRoundTrip(5, 6, 40, "-84.0");
    assert VersionText(5, 6, 40) + "-84.0" == "5.6.40-84.0";
  }

  lemma ParseVersionPercona5722()
    ensures ParseVersion("5.7.22-22") == Triple(5, 7, 22)
  {
    ParseVersionRoundTrip(5, 7, 22, "-22");
    assert VersionText(5, 7, 22) + "-22" == "5.7.22-22";
  }

  lemma MariaDB10134Join1()
    ensures "10.1.34-MariaDB-1~jessie" == "10.1.34-Mari" + "aDB-1~jessie"
  {
  }

  lemma MariaDB10134Join2()
    ensures "-MariaDB-1~jessie" == "-MariaDB-1~j" + "essie"
  {
  }

  lemma MariaDB10134Pieces()
    ensures "10.1.34-MariaDB-1~jessie" == "10.1.34" + "-MariaDB-1~jessie"
  {
    MariaDB10134Join1();
    MariaDB10134Join2();
  }

  lemma ParseVersionMariaDB10134()
    ensures ParseVersion("10.1.34-MariaDB-1~jessie") == Triple(10, 1, 34)
  {
    ParseVersionRoundTrip(10, 1, 34, "-MariaDB-1~jessie");
    assert VersionText(10, 1, 34) == "10.1.34";
    MariaDB10134Pieces();
  }


  lemma MariaDB10216Join1()
    ensures "-MariaDB-10.2.16+mar" == "-MariaDB-1" + "0.2.16+mar"
  {
  }

  lemma MariaDB10216Join2()
    ensures "-MariaDB-10.2.16+maria~jessie" == "-MariaDB-10.2.16+mar" + "ia~jessie"
  {
  }

  lemma MariaDB10216Join3()
    ensures "10.2.16-MariaDB-1" == "10.2.16" + "-MariaDB-1"
  {
  }

  lemma MariaDB10216Join4()
    ensures "10.2.16-MariaDB-10.2.16+mar" == "10.2.16-MariaDB-1" + "0.2.16+mar"
  {
  }

  lemma MariaDB10216Join5()
    ensures "10.2.16-MariaDB-10.2.16+maria~jessie" == "10.2.16-MariaDB-10.2.16+mar" + "ia~jessie"
  {
  }

  lemma MariaDB10216Pieces()
    ensures "10.2.16-MariaDB-10.2.16+maria~jessie" == "10.2.16" + "-MariaDB-10.2.16+maria~jessie"
  {
    MariaDB10216Join1();
    MariaDB10216Join2();
    MariaDB10216Join3();
    MariaDB10216Join4();
    MariaDB10216Join5();
  }


  lemma ParseVersionMariaDB10216()
    ensures ParseVersion("10.2.16-MariaDB-10.2.16+maria~jessie") == Triple(10, 2, 16)
  {
    ParseVersionRoundTrip(10, 2, 16, "-MariaDB-10.2.16+maria~jessie");
    assert VersionText(10, 2, 16) == "10.2.16";
    MariaDB10216Pieces();
  }


  lemma MariaDB1037Join1()
    ensures "-MariaDB-1:10.3.7+ma" == "-MariaDB-1" + ":10.3.7+ma"
  {
  }

  lemma MariaDB1037Join2()
    ensures "-MariaDB-1:10.3.7+maria~jessie" == "-MariaDB-1:10.3.7+ma" + "ria~jessie"
  {
  }

  lemma MariaDB1037Join3()
    ensures "10.3.7-MariaDB-1" == "10.3.7" + "-MariaDB-1"
  {
  }

  lemma MariaDB1037Join4()
    ensures "10.3.7-MariaDB-1:10.3.7+ma" == "10.3.7-MariaDB-1" + ":10.3.7+ma"
  {
  }

  lemma MariaDB1037Join5()
    ensures "10.3.7-MariaDB-1:10.3.7+maria~jessie" == "10.3.7-MariaDB-1:10.3.7+ma" + "ria~jessie"
  {
  }

  lemma MariaDB1037Pieces()
    ensures "10.3.7-MariaDB-1:10.3.7+maria~jessie" == "10.3.7" + "-MariaDB-1:10.3.7+maria~jessie"
  {
    MariaDB1037Join1();
    MariaDB1037Join2();
    MariaDB1037Join3();
    MariaDB1037Join4();
    MariaDB1037Join5();
  }


  lemma ParseVersionMariaDB1037()
    ensures ParseVersion("10.3.7-MariaDB-1:10.3.7+maria~jessie") == Triple(10, 3, 7)
  {
    ParseVersionRoundTrip(10, 3, 7, "-MariaDB-1:10.3.7+maria~jessie");
    assert VersionText(10, 3, 7) == "10.3.7";
    MariaDB1037Pieces();
  }


  /** Text with neither '-' nor '.' is a single field, too few for a version. */
  lemma SingleFieldVersion(text: string)
    requires '-' !in text && '.' !in text
    ensures ParseVersion(text) == ZeroVersion
  {
    BeforeOfFreePrefix(text, [], '-');
    assert text + [] == text;
    SplitNoSep(text, '.');
    TooFewFieldsGiveZero(text);
  }

  lemma ParseVersionInvalid()
    ensures ParseVersion("invalid") == ZeroVersion
  {
    SingleFieldVersion("invalid");
  }

  lemma ParseVersionMajorOnly()
    ensures ParseVersion("5") == ZeroVersion
  {
    SingleFieldVersion("5");
  }

  lemma NonNumericPieces()
    ensures "5.6.invalid" == "5" + ['.'] + ("6" + ['.'] + "invalid")
  {
    assert "6.invalid" == "6" + ['.'] + "invalid";
  }

  /** Three dotted fields with no '-' suffix, the last of them malformed, give no version. */
  lemma MalformedThirdField(a: string, b: string, c: string)
    requires '.' !in a && '.' !in b && '.' !in c
    requires '-' !in a && '-' !in b && '-' !in c
    requires ParseField(c) == None
    ensures ParseVersion(a + ['.'] + (b + ['.'] + c)) == ZeroVersion
  {
    var text := a + ['.'] + (b + ['.'] + c);
    assert '-' !in text;
    BeforeOfFreePrefix(text, [], '-');
    assert text + [] == text;
    SplitHead(a, '.', b + ['.'] + c);
    SplitHead(b, '.', c);
    SplitNoSep(c, '.');
  }

  /** "5.6.invalid": three fields, the last not a number. */
  lemma ParseVersionNonNumericField()
    ensures ParseVersion("5.6.invalid") == ZeroVersion
  {
    assert !IsDigit("invalid"[0]);
    MalformedThirdField("5", "6", "invalid");
    NonNumericPieces();
  }

  lemma LeadingDigits()
    ensures "9300000000000000000" == "93" + "00000000000000000"
    ensures DigitsValue("93") == 93
  {
  }

  /** "9300000000000000000" is above the signed 64-bit maximum. */
  lemma OverflowingField()
    ensures ParseField("9300000000000000000") == None
  {
    LeadingDigits();
    assert AllDigits("00000000000000000");
    DigitsValueAppend("93", "00000000000000000");
    Pow10Add(9, 8);
    assert Pow10(9) == 1000000000 && Pow10(8) == 100000000;
  }

  lemma OverflowPieces()
    ensures "5.7.9300000000000000000" == "5" + ['.'] + ("7" + ['.'] + "9300000000000000000")
  {
    assert "7.9300000000000000000" == "7" + ['.'] + "9300000000000000000";
  }

  lemma ParseVersionOverflow()
    ensures ParseVersion("5.7.9300000000000000000") == ZeroVersion
  {
    OverflowingField();
    MalformedThirdField("5", "7", "9300000000000000000");
    OverflowPieces();
  }

  /** The rows of TestParseVersion. */
  lemma ParseVersionTable()
    ensures ParseVersion("5.6.40") == Triple(5, 6, 40)
    ensures ParseVersion("5.7.22") == Triple(5, 7, 22)
    ensures ParseVersion("5.6.40-84.0") == Triple(5, 6, 40)
    ensures ParseVersion("5.7.22-22") == Triple(5, 7, 22)
    ensures ParseVersion("10.1.34-MariaDB-1~jessie") == Triple(10, 1, 34)
    ensures ParseVersion("10.2.16-MariaDB-10.2.16+maria~jessie") == Triple(10, 2, 16)
    ensures ParseVersion("10.3.7-MariaDB-1:10.3.7+maria~jessie") == Triple(10, 3, 7)
    ensures ParseVersion("invalid") == ZeroVersion
    ensures ParseVersion("5") == ZeroVersion
    ensures ParseVersion("5.6.invalid") == ZeroVersion
    ensures ParseVersion("5.7.9300000000000000000") == ZeroVersion
  {
    ParseVersionPlain5640();
    ParseVersionPlain5722();
    ParseVersionPercona5640();
    ParseVersionPercona5722();
    ParseVersionMariaDB10134();
    ParseVersionMariaDB10216();
    ParseVersionMariaDB1037();
    ParseVersionInvalid();
    ParseVersionMajorOnly();
    ParseVersionNonNumericField();
    ParseVersionOverflow();
  }

  // ---------------------------------------------------------------------
  // TestParseFlavor

  lemma ParseVersionV5642()
    ensures ParseVersion("5.6.42") == Triple(5, 6, 42)
  {
    ParseVersionRoundTrip(5, 6, 42, "");
    assert VersionText(5, 6, 42) == "5.6.42";
    assert "5.6.42" + "" == "5.6.42";
  }

  lemma V5726UbuntuJoin1()
    ensures "-0ubuntu0.18.04.1" == "-0ubuntu0." + "18.04.1"
  {
  }

  lemma V5726UbuntuJoin2()
    ensures "5.7.26-0ubuntu0." == "5.7.26" + "-0ubuntu0."
  {
  }

  lemma V5726UbuntuJoin3()
    ensures "5.7.26-0ubuntu0.18.04.1" == "5.7.26-0ubuntu0." + "18.04.1"
  {
  }

  lemma V5726UbuntuPieces()
    ensures "5.7.26-0ubuntu0.18.04.1" == "5.7.26" + "-0ubuntu0.18.04.1"
  {
    V5726UbuntuJoin1();
    V5726UbuntuJoin2();
    V5726UbuntuJoin3();
  }

  lemma ParseVersionV5726Ubuntu()
    ensures ParseVersion("5.7.26-0ubuntu0.18.04.1") == Triple(5, 7, 26)
  {
    ParseVersionRoundTrip(5, 7, 26, "-0ubuntu0.18.04.1");
    assert VersionText(5, 7, 26) == "5.7.26";
    V5726UbuntuPieces();
  }

  lemma ParseVersionV8016()
    ensures ParseVersion("8.0.16") == Triple(8, 0, 16)
  {
    ParseVersionRoundTrip(8, 0, 16, "");
    assert VersionText(8, 0, 16) == "8.0.16";
    assert "8.0.16" + "" == "8.0.16";
  }

  lemma ParseVersionV5723Percona()
    ensures ParseVersion("5.7.23-23") == Triple(5, 7, 23)
  {
    ParseVersionRoundTrip(5, 7, 23, "-23");
    assert VersionText(5, 7, 23) == "5.7.23";
    assert "5.7.23" + "-23" == "5.7.23-23";
  }

  lemma V10134BionicJoin1()
    ensures "-MariaDB-1~bionic" == "-MariaDB-1" + "~bionic"
  {
  }

  lemma V10134BionicJoin2()
    ensures "10.1.34-MariaDB-1" == "10.1.34" + "-MariaDB-1"
  {
  }

  lemma V10134BionicJoin3()
    ensures "10.1.34-MariaDB-1~bionic" == "10.1.34-MariaDB-1" + "~bionic"
  {
  }

  lemma V10134BionicPieces()
    ensures "10.1.34-MariaDB-1~bionic" == "10.1.34" + "-MariaDB-1~bionic"
  {
    V10134BionicJoin1();
    V10134BionicJoin2();
    V10134BionicJoin3();
  }

  lemma ParseVersionV10134Bionic()
    ensures ParseVersion("10.1.34-MariaDB-1~bionic") == Triple(10, 1, 34)
  {
    ParseVersionRoundTrip(10, 1, 34, "-MariaDB-1~bionic");
    assert VersionText(10, 1, 34) == "10.1.34";
    V10134BionicPieces();
  }

  lemma V10140UbuntuJoin1()
    ensures "-MariaDB-0ubuntu0.18" == "-MariaDB-0" + "ubuntu0.18"
  {
  }

  lemma V10140UbuntuJoin2()
    ensures "-MariaDB-0ubuntu0.18.04.1" == "-MariaDB-0ubuntu0.18" + ".04.1"
  {
  }

  lemma V10140UbuntuJoin3()
    ensures "10.1.40-MariaDB-0" == "10.1.40" + "-MariaDB-0"
  {
  }

  lemma V10140UbuntuJoin4()
    ensures "10.1.40-MariaDB-0ubuntu0.18" == "10.1.40-MariaDB-0" + "ubuntu0.18"
  {
  }

  lemma V10140UbuntuJoin5()
    ensures "10.1.40-MariaDB-0ubuntu0.18.04.1" == "10.1.40-MariaDB-0ubuntu0.18" + ".04.1"
  {
  }

  lemma V10140UbuntuPieces()
    ensures "10.1.40-MariaDB-0ubuntu0.18.04.1" == "10.1.40" + "-MariaDB-0ubuntu0.18.04.1"
  {
    V10140UbuntuJoin1();
    V10140UbuntuJoin2();
    V10140UbuntuJoin3();
    V10140UbuntuJoin4();
    V10140UbuntuJoin5();
  }

  lemma ParseVersionV10140Ubuntu()
    ensures ParseVersion("10.1.40-MariaDB-0ubuntu0.18.04.1") == Triple(10, 1, 40)
  {
    ParseVersionRoundTrip(10, 1, 40, "-MariaDB-0ubuntu0.18.04.1");
    assert VersionText(10, 1, 40) == "10.1.40";
    V10140UbuntuPieces();
  }

  lemma V10215LogJoin1()
    ensures "-MariaDB-log" == "-MariaDB-l" + "og"
  {
  }

  lemma V10215LogJoin2()
    ensures "10.2.15-MariaDB-l" == "10.2.15" + "-MariaDB-l"
  {
  }

  lemma V10215LogJoin3()
    ensures "10.2.15-MariaDB-log" == "10.2.15-MariaDB-l" + "og"
  {
  }

  lemma V10215LogPieces()
    ensures "10.2.15-MariaDB-log" == "10.2.15" + "-MariaDB-log"
  {
    V10215LogJoin1();
    V10215LogJoin2();
    V10215LogJoin3();
  }

  lemma ParseVersionV10215Log()
    ensures ParseVersion("10.2.15-MariaDB-log") == Triple(10, 2, 15)
  {
    ParseVersionRoundTrip(10, 2, 15, "-MariaDB-log");
    assert VersionText(10, 2, 15) == "10.2.15";
    V10215LogPieces();
  }

  lemma V1038LogJoin1()
    ensures "-MariaDB-log" == "-MariaDB-l" + "og"
  {
  }

  lemma V1038LogJoin2()
    ensures "10.3.8-MariaDB-l" == "10.3.8" + "-MariaDB-l"
  {
  }

  lemma V1038LogJoin3()
    ensures "10.3.8-MariaDB-log" == "10.3.8-MariaDB-l" + "og"
  {
  }

  lemma V1038LogPieces()
    ensures "10.3.8-MariaDB-log" == "10.3.8" + "-MariaDB-log"
  {
    V1038LogJoin1();
    V1038LogJoin2();
    V1038LogJoin3();
  }

  lemma ParseVersionV1038Log()
    ensures ParseVersion("10.3.8-MariaDB-log") == Triple(10, 3, 8)
  {
    ParseVersionRoundTrip(10, 3, 8, "-MariaDB-log");
    assert VersionText(10, 3, 8) == "10.3.8";
    V1038LogPieces();
  }

  lemma V10316Pieces()
    ensures "10.3.16-MariaDB" == "10.3.16" + "-MariaDB"
  {
    assert "10.3.16-MariaDB" == "10.3.16" + "-MariaDB";
  }

  lemma ParseVersionV10316()
    ensures ParseVersion("10.3.16-MariaDB") == Triple(10, 3, 16)
  {
    ParseVersionRoundTrip(10, 3, 16, "-MariaDB");
    assert VersionText(10, 3, 16) == "10.3.16";
    V10316Pieces();
  }

  lemma V1038UbuntuJoin1()
    ensures "-0ubuntu0.18.04.1" == "-0ubuntu0." + "18.04.1"
  {
  }

  lemma V1038UbuntuJoin2()
    ensures "10.3.8-0ubuntu0." == "10.3.8" + "-0ubuntu0."
  {
  }

  lemma V1038UbuntuJoin3()
    ensures "10.3.8-0ubuntu0.18.04.1" == "10.3.8-0ubuntu0." + "18.04.1"
  {
  }

  lemma V1038UbuntuPieces()
    ensures "10.3.8-0ubuntu0.18.04.1" == "10.3.8" + "-0ubuntu0.18.04.1"
  {
    V1038UbuntuJoin1();
    V1038UbuntuJoin2();
    V1038UbuntuJoin3();
  }

  lemma ParseVersionV1038Ubuntu()
    ensures ParseVersion("10.3.8-0ubuntu0.18.04.1") == Triple(10, 3, 8)
  {
    ParseVersionRoundTrip(10, 3, 8, "-0ubuntu0.18.04.1");
    assert VersionText(10, 3, 8) == "10.3.8";
    V1038UbuntuPieces();
  }

  lemma ParseVersionV5726()
    ensures ParseVersion("5.7.26") == Triple(5, 7, 26)
  {
    ParseVersionRoundTrip(5, 7, 26, "");
    assert VersionText(5, 7, 26) == "5.7.26";
    assert "5.7.26" + "" == "5.7.26";
  }

  lemma ParseVersionV8013()
    ensures ParseVersion("8.0.13") == Triple(8, 0, 13)
  {
    ParseVersionRoundTrip(8, 0, 13, "");
    assert VersionText(8, 0, 13) == "8.0.13";
    assert "8.0.13" + "" == "8.0.13";
  }

  lemma ParseVersionV603()
    ensures ParseVersion("6.0.3") == Triple(6, 0, 3)
  {
    ParseVersionRoundTrip(6, 0, 3, "");
    assert VersionText(6, 0, 3) == "6.0.3";
    assert "6.0.3" + "" == "6.0.3";
  }

  lemma ParseFlavorRow1()
    ensures ParseFlavor("5.6.42", "MySQL Community Server (GPL)") == Flavor(MySQL, 5, 6, 42)
  {
    VendorOfMySQLCommunityGPL();
    ParseVersionV5642();
  }

  lemma ParseFlavorRow2()
    ensures ParseFlavor("5.7.26-0ubuntu0.18.04.1", "(Ubuntu)") == Flavor(MySQL, 5, 7, 26)
  {
    VendorOfUbuntu();
    ParseVersionV5726Ubuntu();
  }

  lemma ParseFlavorRow3()
    ensures ParseFlavor("8.0.16", "MySQL Community Server - GPL") == Flavor(MySQL, 8, 0, 16)
  {
    VendorOfMySQLCommunityDashGPL();
    ParseVersionV8016();
  }

  lemma ParseFlavorRow4()
    ensures ParseFlavor("5.7.23-23", "Percona Server (GPL), Release 23, Revision 500fcf5") == Flavor(Percona, 5, 7, 23)
  {
    VendorOfPerconaRelease23();
    ParseVersionV5723Percona();
  }

  lemma ParseFlavorRow5()
    ensures ParseFlavor("10.1.34-MariaDB-1~bionic", "mariadb.org binary distribution") == Flavor(MariaDB, 10, 1, 34)
  {
    VendorOfMariaDBOrg();
    ParseVersionV10134Bionic();
  }

  lemma ParseFlavorRow6()
    ensures ParseFlavor("10.1.40-MariaDB-0ubuntu0.18.04.1", "Ubuntu 18.04") == Flavor(MariaDB, 10, 1, 40)
  {
    VendorOfUbuntu1804();
    ParseVersionV10140Ubuntu();
  }

  lemma ParseFlavorRow7()
    ensures ParseFlavor("10.2.15-MariaDB-log", "MariaDB Server") == Flavor(MariaDB, 10, 2, 15)
  {
    VendorOfMariaDBServer();
    ParseVersionV10215Log();
  }

  lemma ParseFlavorRow8()
    ensures ParseFlavor("10.3.8-MariaDB-log", "Source distribution") == Flavor(MariaDB, 10, 3, 8)
  {
    VendorOfSourceDistribution();
    ParseVersionV1038Log();
  }

  lemma ParseFlavorRow9()
    ensures ParseFlavor("10.3.16-MariaDB", "Homebrew") == Flavor(MariaDB, 10, 3, 16)
  {
    VendorOfHomebrew();
    ParseVersionV10316();
  }

  lemma ParseFlavorRow10()
    ensures ParseFlavor("10.3.8-0ubuntu0.18.04.1", "(Ubuntu)") == Flavor(MariaDB, 10, 3, 8)
  {
    VendorOfUbuntu();
    ParseVersionV1038Ubuntu();
  }

  lemma ParseFlavorRow11()
    ensures ParseFlavor("5.7.26", "Homebrew") == Flavor(MySQL, 5, 7, 26)
  {
    VendorOfHomebrew();
    ParseVersionV5726();
  }

  lemma ParseFlavorRow12()
    ensures ParseFlavor("8.0.13", "Homebrew") == Flavor(MySQL, 8, 0, 13)
  {
    VendorOfHomebrew();
    ParseVersionV8013();
  }

  /** A flavor read from a comment that names no vendor, with a version of no known major. */
  lemma ParseFlavorNoVendor(versionText: string, comment: string, v: Triple)
    requires ParseVendor(comment) == Unknown && ParseVersion(versionText) == v
    requires v.major !in {5, 8, 10}
    ensures ParseFlavor(versionText, comment) == Flavor(Unknown, v.major, v.minor, v.patch)
  {
  }

  lemma ParseFlavorRow13()
    ensures ParseFlavor("6.0.3", "Source distribution") == Flavor(Unknown, 6, 0, 3)
  {
    VendorOfSourceDistribution();
    ParseVersionV603();
    ParseFlavorNoVendor("6.0.3", "Source distribution", Triple(6, 0, 3));
  }

  lemma WebScaleSQLSeparators()
    ensures '-' !in "webscalesql" && '.' !in "webscalesql"
  {
    assert AllLetters("webscalesql");
  }

  lemma ParseFlavorUnparseable()
    ensures ParseFlavor("webscalesql", "webscalesql") == FlavorUnknown
  {
    VendorOfWebScaleSQL();
    WebScaleSQLSeparators();
    SingleFieldVersion("webscalesql");
    ParseFlavorNoVendor("webscalesql", "webscalesql", ZeroVersion);
  }

  /** The rows of TestParseFlavor. */
  lemma ParseFlavorTable()
    ensures ParseFlavor("5.6.42", "MySQL Community Server (GPL)") == Flavor(MySQL, 5, 6, 42)
    ensures ParseFlavor("5.7.26-0ubuntu0.18.04.1", "(Ubuntu)") == Flavor(MySQL, 5, 7, 26)
    ensures ParseFlavor("8.0.16", "MySQL Community Server - GPL") == Flavor(MySQL, 8, 0, 16)
    ensures ParseFlavor("5.7.23-23", "Percona Server (GPL), Release 23, Revision 500fcf5") == Flavor(Percona, 5, 7, 23)
    ensures ParseFlavor("10.1.34-MariaDB-1~bionic", "mariadb.org binary distribution") == Flavor(MariaDB, 10, 1, 34)
    ensures ParseFlavor("10.1.40-MariaDB-0ubuntu0.18.04.1", "Ubuntu 18.04") == Flavor(MariaDB, 10, 1, 40)
    ensures ParseFlavor("10.2.15-MariaDB-log", "MariaDB Server") == Flavor(MariaDB, 10, 2, 15)
    ensures ParseFlavor("10.3.8-MariaDB-log", "Source distribution") == Flavor(MariaDB, 10, 3, 8)
    ensures ParseFlavor("10.3.16-MariaDB", "Homebrew") == Flavor(MariaDB, 10, 3, 16)
    ensures ParseFlavor("10.3.8-0ubuntu0.18.04.1", "(Ubuntu)") == Flavor(MariaDB, 10, 3, 8)
    ensures ParseFlavor("5.7.26", "Homebrew") == Flavor(MySQL, 5, 7, 26)
    ensures ParseFlavor("8.0.13", "Homebrew") == Flavor(MySQL, 8, 0, 13)
    ensures ParseFlavor("webscalesql", "webscalesql") == FlavorUnknown
    ensures ParseFlavor("6.0.3", "Source distribution") == Flavor(Unknown, 6, 0, 3)
  {
    ParseFlavorRow1();
    ParseFlavorRow2();
    ParseFlavorRow3();
    ParseFlavorRow4();
    ParseFlavorRow5();
    ParseFlavorRow6();
    ParseFlavorRow7();
    ParseFlavorRow8();
    ParseFlavorRow9();
    ParseFlavorRow10();
    ParseFlavorRow11();
    ParseFlavorRow12();
    ParseFlavorRow13();
    ParseFlavorUnparseable();
  }

  // ---------------------------------------------------------------------
  // TestNewFlavor: the flavor, its string form, Supported and Known

  /** A bare vendor name classifies as that vendor and carries no version. */
  lemma BareVendorName(v: Vendor)
    ensures ParseVendor(v.Name()) == v
    ensures BaseVersion(v.Name()) == ZeroVersion
  {
    assert v.Name() + "" == v.Name();
    VendorOfName(v, "");
    NameHasNoColon(v);
  }

  /** "webscalesql" has no ':' and hence no version of its own. */
  lemma WebScaleSQLBase()
    ensures BaseVersion("webscalesql") == ZeroVersion
  {
    assert AllLetters("webscalesql");
    assert ':' !in "webscalesql";
  }

  lemma MySQL8Pieces()
    ensures "mysql:8" == MySQL.Name() + ":" + "8"
    ensures "mysql:8" == MySQL.Name() + ":8"
    ensures NoLetters(":8")
  {
    assert "mysql:8" == "mysql" + ":8";
  }

  lemma VendorOfMySQL8()
    ensures ParseVendor("mysql:8") == MySQL
  {
    MySQL8Pieces();
    VendorOfName(MySQL, ":8");
  }

  lemma BaseVersionMySQL8()
    ensures BaseVersion("mysql:8") == Triple(8, 0, 0)
  {
    MySQL8Pieces();
    NameHasNoColon(MySQL);
    AfterColonOfName(MySQL.Name(), "8");
    SplitNoSep("8", '.');
  }

  /** "mysql:8": a major version alone, with minor and patch 0. */
  lemma NewFlavorMajorOnly()
    ensures NewFlavor("mysql:8", []) == FlavorMySQL80
  {
    VendorOfMySQL8();
    BaseVersionMySQL8();
  }

  /**
   * The rows of TestNewFlavor, one lemma each: the flavor NewFlavor returns,
   * its string form, and whether it is supported and known.
   */
  lemma NewFlavorRow1()
    ensures NewFlavor("mysql", [5, 6, 40]) == Flavor(MySQL, 5, 6, 40)
    ensures Flavor(MySQL, 5, 6, 40).String() == "mysql:5.6.40"
    ensures Flavor(MySQL, 5, 6, 40).Supported() && Flavor(MySQL, 5, 6, 40).Known()
  {
    BareVendorName(MySQL);
  }

  lemma NewFlavorRow2()
    ensures NewFlavor("mysql:5.7", []) == FlavorMySQL57
    ensures FlavorMySQL57.String() == "mysql:5.7"
    ensures FlavorMySQL57.Supported() && FlavorMySQL57.Known()
  {
    assert FlavorMySQL57.String() == "mysql:5.7";
    StringRoundTrip(FlavorMySQL57);
  }

  lemma NewFlavorRow3()
    ensures NewFlavor("mysql:5.5.49", []) == Flavor(MySQL, 5, 5, 49)
    ensures Flavor(MySQL, 5, 5, 49).String() == "mysql:5.5.49"
    ensures Flavor(MySQL, 5, 5, 49).Supported() && Flavor(MySQL, 5, 5, 49).Known()
  {
    assert Flavor(MySQL, 5, 5, 49).String() == "mysql:5.5.49";
    StringRoundTrip(Flavor(MySQL, 5, 5, 49));
  }

  lemma NewFlavorRow4()
    ensures NewFlavor("mysql", [8, 0, 11]) == Flavor(MySQL, 8, 0, 11)
    ensures Flavor(MySQL, 8, 0, 11).String() == "mysql:8.0.11"
    ensures Flavor(MySQL, 8, 0, 11).Supported() && Flavor(MySQL, 8, 0, 11).Known()
  {
    BareVendorName(MySQL);
  }

  lemma NewFlavorRow5()
    ensures NewFlavor("mysql:8", []) == FlavorMySQL80
    ensures FlavorMySQL80.String() == "mysql:8.0"
    ensures FlavorMySQL80.Supported() && FlavorMySQL80.Known()
  {
    NewFlavorMajorOnly();
  }

  lemma NewFlavorRow6()
    ensures NewFlavor("mysql", [8, 1, 2]) == Flavor(MySQL, 8, 1, 2)
    ensures Flavor(MySQL, 8, 1, 2).String() == "mysql:8.1.2"
    ensures !Flavor(MySQL, 8, 1, 2).Supported() && Flavor(MySQL, 8, 1, 2).Known()
  {
    BareVendorName(MySQL);
  }

  lemma NewFlavorRow7()
    ensures NewFlavor("percona", [5, 6]) == FlavorPercona56
    ensures FlavorPercona56.String() == "percona:5.6"
    ensures FlavorPercona56.Supported() && FlavorPercona56.Known()
  {
    BareVendorName(Percona);
  }

  lemma NewFlavorRow8()
    ensures NewFlavor("percona:5.7", []) == FlavorPercona57
    ensures FlavorPercona57.String() == "percona:5.7"
    ensures FlavorPercona57.Supported() && FlavorPercona57.Known()
  {
    assert FlavorPercona57.String() == "percona:5.7";
    StringRoundTrip(FlavorPercona57);
  }

  lemma NewFlavorRow9()
    ensures NewFlavor("percona", []) == Flavor(Percona, 0, 0, 0)
    ensures Flavor(Percona, 0, 0, 0).String() == "percona:0.0"
    ensures !Flavor(Percona, 0, 0, 0).Supported() && !Flavor(Percona, 0, 0, 0).Known()
  {
    BareVendorName(Percona);
  }

  lemma NewFlavorRow10()
    ensures NewFlavor("percona", [8, 0, 12]) == Flavor(Percona, 8, 0, 12)
    ensures Flavor(Percona, 8, 0, 12).String() == "percona:8.0.12"
    ensures Flavor(Percona, 8, 0, 12).Supported() && Flavor(Percona, 8, 0, 12).Known()
  {
    BareVendorName(Percona);
  }

  lemma NewFlavorRow11()
    ensures NewFlavor("mariadb", [10, 1, 10]) == Flavor(MariaDB, 10, 1, 10)
    ensures Flavor(MariaDB, 10, 1, 10).String() == "mariadb:10.1.10"
    ensures Flavor(MariaDB, 10, 1, 10).Supported() && Flavor(MariaDB, 10, 1, 10).Known()
  {
    BareVendorName(MariaDB);
  }

  lemma NewFlavorRow12()
    ensures NewFlavor("mariadb:10.2", []) == FlavorMariaDB102
    ensures FlavorMariaDB102.String() == "mariadb:10.2"
    ensures FlavorMariaDB102.Supported() && FlavorMariaDB102.Known()
  {
    assert FlavorMariaDB102.String() == "mariadb:10.2";
    StringRoundTrip(FlavorMariaDB102);
  }

  lemma NewFlavorRow13()
    ensures NewFlavor("mariadb", [10, 3]) == FlavorMariaDB103
    ensures FlavorMariaDB103.String() == "mariadb:10.3"
    ensures FlavorMariaDB103.Supported() && FlavorMariaDB103.Known()
  {
    BareVendorName(MariaDB);
  }

  lemma NewFlavorRow14()
    ensures NewFlavor("10.3.8-MariaDB-log", [10, 3]) == FlavorMariaDB103
    ensures FlavorMariaDB103.String() == "mariadb:10.3"
    ensures FlavorMariaDB103.Supported() && FlavorMariaDB103.Known()
  {
    VendorOfMariaDBLogBuild();
  }

  lemma NewFlavorRow15()
    ensures NewFlavor("mariadb", [10]) == Flavor(MariaDB, 10, 0, 0)
    ensures Flavor(MariaDB, 10, 0, 0).String() == "mariadb:10.0"
    ensures !Flavor(MariaDB, 10, 0, 0).Supported() && Flavor(MariaDB, 10, 0, 0).Known()
  {
    BareVendorName(MariaDB);
  }

  lemma NewFlavorRow16()
    ensures NewFlavor("webscalesql", []) == FlavorUnknown
    ensures FlavorUnknown.String() == "unknown:0.0"
    ensures !FlavorUnknown.Supported() && !FlavorUnknown.Known()
  {
    VendorOfWebScaleSQL();
    WebScaleSQLBase();
  }

  lemma NewFlavorRow17()
    ensures NewFlavor("webscalesql", [5, 6]) == Flavor(Unknown, 5, 6, 0)
    ensures Flavor(Unknown, 5, 6, 0).String() == "unknown:5.6"
    ensures !Flavor(Unknown, 5, 6, 0).Supported() && !Flavor(Unknown, 5, 6, 0).Known()
  {
    VendorOfWebScaleSQL();
    WebScaleSQLBase();
  }

  // ---------------------------------------------------------------------
  // TestFlavorVendorMinVersion and the feature predicates

  /** The rows of TestFlavorVendorMinVersion. */
  lemma VendorMinVersionTable()
    ensures FlavorMySQL56.VendorMinVersion(MySQL, 5, 6, 0)
    ensures FlavorMySQL56.VendorMinVersion(MySQL, 5, 5, 0)
    ensures !FlavorMySQL56.VendorMinVersion(MySQL, 5, 7, 0)
    ensures FlavorMySQL80.VendorMinVersion(MySQL, 5, 7, 0)
    ensures !FlavorMySQL56.VendorMinVersion(Percona, 5, 6, 0)
    ensures !FlavorMariaDB103.VendorMinVersion(MySQL, 8, 0, 0)
    ensures Flavor(MySQL, 5, 7, 20).VendorMinVersion(MySQL, 5, 7, 0)
    ensures Flavor(MySQL, 5, 7, 20).VendorMinVersion(MySQL, 5, 6, 0)
    ensures !Flavor(MySQL, 5, 7, 20).VendorMinVersion(MySQL, 8, 0, 0)
    ensures !FlavorMySQL57.VendorMinVersion(MySQL, 5, 7, 20)
    ensures FlavorMySQL80.VendorMinVersion(MySQL, 5, 7, 20)
    ensures Flavor(MySQL, 5, 7, 20).VendorMinVersion(MySQL, 5, 6, 30)
    ensures !Flavor(MySQL, 5, 6, 30).VendorMinVersion(MySQL, 5, 7, 20)
    ensures Flavor(MySQL, 5, 7, 20).VendorMinVersion(MySQL, 5, 7, 20)
    ensures Flavor(MySQL, 5, 7, 20).VendorMinVersion(MySQL, 5, 7, 15)
    ensures !Flavor(MySQL, 5, 7, 15).VendorMinVersion(MySQL, 5, 7, 20)
  {
  }

  /** The rows of TestFlavorFractionalTimestamps and TestFlavorHasDataDictionary. */
  lemma TimestampAndDictionaryTable()
    ensures !FlavorMySQL55.FractionalTimestamps() && FlavorMySQL56.FractionalTimestamps()
    ensures FlavorMySQL57.FractionalTimestamps() && FlavorMariaDB101.FractionalTimestamps()
    ensures !FlavorPercona55.FractionalTimestamps() && FlavorPercona56.FractionalTimestamps()
    ensures FlavorUnknown.FractionalTimestamps()
    ensures !FlavorMySQL55.HasDataDictionary() && !FlavorMySQL57.HasDataDictionary()
    ensures FlavorMySQL80.HasDataDictionary() && !FlavorMariaDB101.HasDataDictionary()
    ensures FlavorPercona80.HasDataDictionary() && !FlavorPercona56.HasDataDictionary()
    ensures !FlavorUnknown.HasDataDictionary()
  {
  }

  /** The rows of TestFlavorDefaultUtf8mb4Collation and TestFlavorAlwaysShowTableCollation. */
  lemma CollationTable()
    ensures FlavorMySQL55.DefaultUtf8mb4Collation() == "utf8mb4_general_ci"
    ensures FlavorMySQL57.DefaultUtf8mb4Collation() == "utf8mb4_general_ci"
    ensures FlavorMySQL80.DefaultUtf8mb4Collation() == "utf8mb4_0900_ai_ci"
    ensures FlavorMariaDB101.DefaultUtf8mb4Collation() == "utf8mb4_general_ci"
    ensures FlavorPercona80.DefaultUtf8mb4Collation() == "utf8mb4_0900_ai_ci"
    ensures FlavorPercona56.DefaultUtf8mb4Collation() == "utf8mb4_general_ci"
    ensures FlavorUnknown.DefaultUtf8mb4Collation() == "utf8mb4_general_ci"
    ensures !FlavorMySQL55.AlwaysShowTableCollation("utf8mb4")
    ensures !FlavorMySQL57.AlwaysShowTableCollation("utf8")
    ensures FlavorMySQL80.AlwaysShowTableCollation("utf8mb4")
    ensures !FlavorMySQL80.AlwaysShowTableCollation("latin1")
    ensures !FlavorMariaDB101.AlwaysShowTableCollation("utf8mb4")
    ensures !FlavorPercona56.AlwaysShowTableCollation("utf8")
    ensures FlavorPercona80.AlwaysShowTableCollation("utf8mb4")
    ensures !FlavorPercona80.AlwaysShowTableCollation("utf8")
    ensures !FlavorUnknown.AlwaysShowTableCollation("utf8mb4")
  {
  }

  /** The rows of TestFlavorGeneratedColumns. */
  lemma GeneratedColumnsTable()
    ensures !FlavorMySQL55.GeneratedColumns() && !FlavorMySQL56.GeneratedColumns()
    ensures FlavorMySQL57.GeneratedColumns() && FlavorMySQL80.GeneratedColumns()
    ensures !FlavorMariaDB101.GeneratedColumns() && FlavorMariaDB102.GeneratedColumns()
    ensures !FlavorPercona56.GeneratedColumns() && FlavorPercona57.GeneratedColumns()
    ensures !FlavorUnknown.GeneratedColumns()
  {
  }

  lemma VendorOfUnknown56()
    ensures ParseVendor("unknown:5.6") == Unknown
  {
    FoldLacksSpan("unknown:5.6", 'm', 0);
    FoldLacksSpan("unknown:5.6", 'p', 0);
    FoldedAbsence("unknown:5.6", "mariadb", 0);
    FoldedAbsence("unknown:5.6", "percona", 0);
    FoldedAbsence("unknown:5.6", "mysql", 0);
  }

  lemma SplitFiveSix()
    ensures Split("5.6", '.') == ["5", "6"]
  {
    SplitNoSep("6", '.');
    assert ".6"[1..] == "6";
    assert Split(".6", '.') == ["", "6"];
    assert "5.6"[1..] == ".6";
    assert ['5'] + "" == "5";
  }

  lemma Unknown56Pieces()
    ensures ':' !in "unknown"
    ensures "unknown:5.6" == "unknown" + ":" + "5.6"
  {
    assert AllLetters("unknown");
  }

  lemma FieldsFiveSix()
    ensures SpecField(["5", "6"], 0) == 5 && SpecField(["5", "6"], 1) == 6 && SpecField(["5", "6"], 2) == 0
  {
    assert ParseDecimal("5") == Some(5);
    assert ParseDecimal("6") == Some(6);
  }

  /** The version of "name:nums" for a colon-free name is read from `nums` alone. */
  lemma BaseVersionOfName(name: string, nums: string)
    requires ':' !in name
    ensures var fields := Split(nums, '.');
            BaseVersion(name + ":" + nums) == Triple(SpecField(fields, 0), SpecField(fields, 1), SpecField(fields, 2))
  {
    AfterColonOfName(name, nums);
  }

  lemma BaseVersionUnknown56()
    ensures BaseVersion("unknown:5.6") == Triple(5, 6, 0)
  {
    Unknown56Pieces();
    BaseVersionOfName("unknown", "5.6");
    SplitFiveSix();
    FieldsFiveSix();
  }

  /** "unknown:5.6" names no vendor keyword but does carry a version. */
  lemma NewFlavorUnknown56()
    ensures NewFlavor("unknown:5.6", []) == Flavor(Unknown, 5, 6, 0)
  {
    VendorOfUnknown56();
    BaseVersionUnknown56();
  }

  /** A flavor of no known vendor is assumed to sort its foreign keys. */
  lemma SortedForeignKeysUnknown56()
    ensures NewFlavor("unknown:5.6", []).SortedForeignKeys()
  {
    NewFlavorUnknown56();
    assert !Flavor(Unknown, 5, 6, 0).IsMySQLish();
  }

  /** The rows of TestSortedForeignKeys. */
  lemma SortedForeignKeysTable()
    ensures !FlavorMySQL55.SortedForeignKeys() && FlavorMySQL56.SortedForeignKeys()
    ensures FlavorMySQL80.SortedForeignKeys() && !Flavor(MySQL, 8, 0, 19).SortedForeignKeys()
    ensures !FlavorPercona55.SortedForeignKeys() && FlavorPercona57.SortedForeignKeys()
    ensures !Flavor(Percona, 8, 0, 19).SortedForeignKeys()
    ensures FlavorMariaDB101.SortedForeignKeys() && FlavorMariaDB102.SortedForeignKeys()
    ensures FlavorMariaDB103.SortedForeignKeys()
  {
  }

  /** The rows of TestOmitIntDisplayWidth. */
  lemma OmitIntDisplayWidthTable()
    ensures !FlavorMySQL55.OmitIntDisplayWidth() && !FlavorMySQL56.OmitIntDisplayWidth()
    ensures !FlavorMySQL80.OmitIntDisplayWidth() && !Flavor(MySQL, 8, 0, 18).OmitIntDisplayWidth()
    ensures Flavor(MySQL, 8, 0, 19).OmitIntDisplayWidth()
    ensures !FlavorPercona55.OmitIntDisplayWidth() && !FlavorPercona57.OmitIntDisplayWidth()
    ensures Flavor(Percona, 8, 0, 19).OmitIntDisplayWidth() && Flavor(Percona, 8, 0, 20).OmitIntDisplayWidth()
    ensures !FlavorMariaDB101.OmitIntDisplayWidth() && !FlavorMariaDB104.OmitIntDisplayWidth()
  {
  }
}
