/** The keyword table of the relevance filter (app/extractor/preprocess.py). */
module Keywords {
  /** `RELEVANT_KEYWORDS`. */
  const RelevantKeywords: seq<string> := [
    "Agreement", "Effective Date", "Commencement", "Start Date",
    "Term", "Renewal", "Expiration", "Termination", "Contract ID", "Agreement ID", "Extension", "Parties",
    "Contract Period", "Initial Term", "Renewal Term",
    "Scope", "Deliverables", "Obligations", "Performance Obligation",
    "Implementation", "Integration", "Support", "Maintenance", "Training",
    "Workshop", "Certification", "Add-On", "Module", "Feature",
    "Service", "SaaS License", "Subscription", "Access Rights",
    "Post-Contract Support", "Renewal Support", "Milestone", "Go-Live",
    "Acceptance", "Deployment", "Installation", "Configuration",
    "Pricing", "Fees", "Charges", "Consideration", "Compensation",
    "Payment", "Payment Terms", "Billing", "Invoice", "Invoicing",
    "Schedule of Payments", "Installments", "Advance Payment",
    "Discount", "Rebate", "Variable Consideration", "Service Credit",
    "Credit", "Refund", "Taxes", "Tax", "Taxation",
    "Adjustments", "Adjustment", "Overages", "Usage-Based Fees",
    "Deferred Payment", "Early Termination Fee",
    "Allocation", "Standalone Selling Price", "SSP", "Schedule A",
    "Schedule B", "Schedule C", "Schedule D", "Contract Value", "Transaction Price",
    "Consideration Allocation", "Revenue Schedule", "Revenue Allocation",
    "Deferred Revenue", "Fair Value Allocation", "Reallocation",
    "Multiple Element Arrangement", "Price Allocation",
    "Revenue Recognition", "Recognition", "Recognition Basis",
    "Timing of Revenue", "Transfer of Control", "Milestone Completion",
    "Over Time", "Point in Time", "ASC 606", "Revenue Pattern",
    "Recognition Schedule", "Recognition Criteria", "Recognition Method",
    "Addendum", "Contract Modification", "Change Order",
    "Statement of Work", "SOW", "Financial Reporting",
    "Accounting", "Audit", "Audit Trail", "Deferred Revenue Disclosure"
  ]
}
