/** The user rows that the money services consult. */
module Users {
  datatype UserStatus = Normal | FrozenUser | ExpenseRestricted | IncomeRestricted

  /** `hasAccount` says whether the account row exists; it has the user's index. */
  datatype User = User(verified: bool, status: UserStatus, highRisk: bool, hasAccount: bool, accountActive: bool)
}
