/** The permissions, the sensitive ones among them, and the roles. */
module Catalogue {
  datatype Permission =
    | OrgRead | OrgUpdate | OrgDelete | OrgTransferOwnership | GroupRead | GroupCreate | GroupUpdate
    | GroupDelete | PropertyRead | PropertyCreate | PropertyUpdate | PropertyDelete | PropertyPublishContent
    | PropertyClone | PropertyBulkImport | MemberRead | MemberInvite | MemberUpdateRole | MemberRemove
    | RoleManageCustom | RoomTypeRead | RoomTypeCreate | RoomTypeUpdate | RoomTypeDelete | RatePlanRead
    | RatePlanCreate | RatePlanUpdate | RatePlanDelete | UnitRead | UnitCreate | UnitUpdate | UnitDelete
    | AriRead | AriUpdateAvailability | AriUpdateRate | AriUpdateRestriction | AriBulkExecute | AriForceResync
    | YieldRuleRead | YieldRuleCreate | YieldRuleUpdate | YieldRuleDelete | YieldRuleExecute | ChannelRead
    | ChannelCreate | ChannelUpdateSettings | ChannelUpdateMapping | ChannelActivate | ChannelDeactivate
    | ChannelDelete | ChannelReadCredentials | ChannelAccountManage | BookingRead | BookingReadPii
    | BookingReadPaymentInstrument | BookingCreate | BookingModify | BookingCancel | BookingAssignUnit
    | BookingCheckInOut | BookingResolveUnmapped | AccessCredentialRead | AccessCredentialIssue
    | AccessCredentialRevoke | TurnoverRead | TurnoverReadOwn | TurnoverUpdate | TurnoverAssign
    | TurnoverComplete | UnitUpdateStatus | MaintenanceRead | MaintenanceCreate | MaintenanceUpdate
    | MaintenanceAssign | BlockManage | ChecklistManage | NoteCreate | FolioRead | FolioUpdate | ChargeCreate
    | PaymentCapture | PaymentRefund | InvoiceIssue | TaxManage | OwnerRead | OwnerCreate | OwnerUpdate
    | AgreementRead | AgreementManage | StatementRead | StatementReadOwn | StatementGenerate | StatementApprove
    | StatementSend | ExpenseRead | ExpenseCreate | ExpenseApprove | PayoutRead | PayoutExecute | MessageRead
    | MessageSend | MessageCloseThread | TemplateRead | TemplateManage | AutomationManage | ReviewRead
    | ReviewRespond | ReportRead | ReportReadFinancial | ReportReadOwn | ExportExecute | AuditRead | ApiKeyRead
    | ApiKeyCreate | ApiKeyRevoke | WebhookManage | PluginRead | PluginInstall | PluginConfigure | BillingRead
    | BillingManage | ImpersonationExecute

  /** Never part of a role through a tick; only through a step-up cell or an override of a grant. */
  predicate IsSensitive(p: Permission) {
    p in {
      BookingReadPaymentInstrument, ChannelReadCredentials, ChannelAccountManage, PayoutExecute,
      ImpersonationExecute, OrgDelete, PropertyDelete
    }
  }

  datatype SystemRole =
    | OrgOwner | OrgAdmin | PortfolioManager | PropertyManager | RevenueManager | ReservationsAgent
    | OpsCoordinator | Cleaner | MaintenanceTech | GuestRelations | Finance | Owner | Viewer

  /** The roles of the matrix, and two that have no permissions of their own. */
  datatype RoleKey = System(role: SystemRole) | PlatformOperator | ServiceAccount

  datatype ScopeKind = OrganizationScope | GroupScope | PropertyScope

  datatype RowFilter = Own | Today | Limited | Aggregate | NameOnly | OwnStays
}
