/** Project-wide crawler settings used by the spider (app/crawler/settings.py). */
module Settings {

  /** Links ending in one of these suffixes are never followed. */
  const IGNORED_EXTENSIONS: seq<string> := [".jpg", ".jpeg", ".png", ".gif", ".css", ".js"]

  /** Keywords used when a spider is created without any. */
  const DEFAULT_TARGET_KEYWORDS: seq<string> := [
    "Budget", "ACFR", "Finance Director", "CFO", "Financial Report",
    "Expenditure", "Revenue", "General Fund", "Capital Improvement Plan",
    "Fiscal Year", "Audit", "Auditor", "Treasurer", "Bond Issuance",
    "Municipal Bonds", "Debt Service", "Fund Balance", "Operating Budget",
    "Financial Statement", "Public Finance", "Controller", "Accounting",
    "CAFR", "GFOA", "Financial Planning", "Budget Hearing", "Budget Proposal",
    "Budget Adoption", "Reserve Fund", "Financial Forecast"
  ]
}
