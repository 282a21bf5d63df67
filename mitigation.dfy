/** The fixed catalog of recommended defenses, one per attack technique. */
module Mitigation {

  const Fallback: string := "Implement defense-in-depth security controls"

  const TechniqueKeys: set<string> := {"password_spray", "kerberoasting", "pass_the_hash", "golden_ticket"}

  const Catalog: map<string, string> := map[
    "password_spray" := "Enable account lockout policies, implement MFA, monitor for multiple failed logins",
    "kerberoasting" := "Use strong service account passwords, implement Managed Service Accounts, monitor for TGS requests",
    "pass_the_hash" := "Disable NTLM authentication, use Credential Guard, implement Privileged Access Workstations",
    "golden_ticket" := "Reset KRBTGT account password twice, monitor for anomalous TGT requests, implement PAW"
  ]

  /** `mitigations.get(attack_type, fallback)`: never empty; the catalog's
      advice exactly for the four technique keys, the fallback for any other. */
  function GetMitigation(attackType: string): (r: string)
    ensures r != ""
    ensures attackType in TechniqueKeys ==> r == Catalog[attackType]
    ensures attackType !in TechniqueKeys ==> r == Fallback
    ensures attackType in TechniqueKeys <==> r != Fallback
  {
    if attackType in Catalog then Catalog[attackType] else Fallback
  }

  /** The advice the catalog gives for each technique. */
  lemma CatalogEntries()
    ensures GetMitigation("password_spray") ==
      "Enable account lockout policies, implement MFA, monitor for multiple failed logins"
    ensures GetMitigation("kerberoasting") ==
      "Use strong service account passwords, implement Managed Service Accounts, monitor for TGS requests"
    ensures GetMitigation("pass_the_hash") ==
      "Disable NTLM authentication, use Credential Guard, implement Privileged Access Workstations"
    ensures GetMitigation("golden_ticket") ==
      "Reset KRBTGT account password twice, monitor for anomalous TGT requests, implement PAW"
  {
  }
}
