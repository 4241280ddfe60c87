/** The quota identifier kept in an export's description (common/utils/powerscale-fs). */
module QuotaTag {
  import opened Strings

  const CSI_QUOTA_ID_PREFIX := "CSI_QUOTA_ID:"

  function GetQuotaIDWithCSITag(quotaID: string): string {
    if quotaID == "" then "" else CSI_QUOTA_ID_PREFIX + quotaID
  }

  /** The pattern `^CSI_QUOTA_ID:(.*)`: the dot stops at the first newline. */
  function GetQuotaIDFromDescription(description: string): string {
    if HasPrefix(description, CSI_QUOTA_ID_PREFIX)
    then Split(description[|CSI_QUOTA_ID_PREFIX|..], "\n")[0]
    else ""
  }

  /** The tag, written out; a description without it names no quota. */
  lemma TagWrittenOut(quotaID: string, description: string)
    ensures GetQuotaIDWithCSITag(quotaID) == if quotaID == "" then "" else "CSI_QUOTA_ID:" + quotaID
    ensures GetQuotaIDFromDescription(description) != "" ==> HasPrefix(description, "CSI_QUOTA_ID:")
  {
  }

  /** The tag gives the quota back exactly when the identifier is a single line. */
  lemma QuotaTagRoundTrip(quotaID: string)
    ensures GetQuotaIDFromDescription(GetQuotaIDWithCSITag(quotaID)) == quotaID <==> '\n' !in quotaID
  {
    if quotaID != "" {
      var d := CSI_QUOTA_ID_PREFIX + quotaID;
      assert d[..|CSI_QUOTA_ID_PREFIX|] == CSI_QUOTA_ID_PREFIX && d[|CSI_QUOTA_ID_PREFIX|..] == quotaID;
      SealedByOneChar(quotaID, '\n');
      if Index(quotaID, "\n") != -1 { assert |Split(quotaID, "\n")[0]| < |quotaID|; }
    }
  }
}
