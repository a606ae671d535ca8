/** What the rows of the permission matrix grant. */
module Rows {
  import opened Wrappers
  import opened Catalogue

  /** What R, a tick, the own mark and the named qualifiers of a row stand for. */
  datatype RowDef = RowDef(
    read: seq<Permission>, full: seq<Permission>, own: Option<seq<Permission>>,
    named: map<string, seq<Permission>>)

  datatype RowLabel =
    | Organization | Groups | Properties | CloneBulkImportProperty | PeopleAndRoles | CustomRoles
    | RoomTypesUnits | RatePlans | ARI | BulkARIForceResync | YieldRules | ChannelSettingsAndMapping
    | ChannelAccountsCredentials | BookingsRead | GuestPII | PaymentInstrument | CreateModifyCancelBooking
    | AssignUnitCheckInOut | AccessCredentials | UnmappedBookingQueue | TurnoverBoard | AssignCrewsTasks
    | UnitStatus | Maintenance | Blocks | FoliosAndCharges | CaptureRefundPayment | InvoicesAndTax
    | OwnersAndAgreements | StatementsGenerateApproveSend | StatementsRead | Expenses | Payouts
    | GuestMessaging | TemplatesAndAutomation | Reviews | OperationalReports | FinancialReports | Exports
    | AuditLog | APIKeysAndWebhooks | Plugins | Billing
    | Undefined(name: string)

  /** None for a label that has no definition. */
  function RowOf(name: RowLabel): Option<RowDef> {
    match name
    case Organization =>
      Some(RowDef(
        [OrgRead],
        [OrgRead, OrgUpdate, OrgDelete, OrgTransferOwnership],
        None, map["update" := [OrgUpdate]]))
    case Groups =>
      Some(RowDef(
        [GroupRead],
        [GroupRead, GroupCreate, GroupUpdate, GroupDelete],
        None, map["update" := [GroupUpdate]]))
    case Properties =>
      Some(RowDef(
        [PropertyRead],
        [PropertyRead, PropertyCreate, PropertyUpdate, PropertyDelete, PropertyPublishContent],
        None, map[]))
    case CloneBulkImportProperty => Some(RowDef([], [PropertyClone, PropertyBulkImport], None, map[]))
    case PeopleAndRoles =>
      Some(RowDef(
        [MemberRead],
        [MemberRead, MemberInvite, MemberUpdateRole, MemberRemove],
        None, map["crews" := [MemberRead, MemberInvite, MemberRemove]]))
    case CustomRoles => Some(RowDef([], [RoleManageCustom], None, map[]))
    case RoomTypesUnits =>
      Some(RowDef(
        [RoomTypeRead, UnitRead],
        [RoomTypeRead, RoomTypeCreate, RoomTypeUpdate, RoomTypeDelete, UnitRead, UnitCreate, UnitUpdate,
         UnitDelete],
        None, map[]))
    case RatePlans =>
      Some(RowDef([RatePlanRead], [RatePlanRead, RatePlanCreate, RatePlanUpdate, RatePlanDelete], None, map[]))
    case ARI =>
      Some(RowDef(
        [AriRead],
        [AriRead, AriUpdateAvailability, AriUpdateRate, AriUpdateRestriction],
        None, map["avail" := [AriRead, AriUpdateAvailability]]))
    case BulkARIForceResync => Some(RowDef([], [AriBulkExecute, AriForceResync], None, map[]))
    case YieldRules =>
      Some(RowDef(
        [YieldRuleRead],
        [YieldRuleRead, YieldRuleCreate, YieldRuleUpdate, YieldRuleDelete, YieldRuleExecute],
        None, map[]))
    case ChannelSettingsAndMapping =>
      Some(RowDef(
        [ChannelRead],
        [ChannelRead, ChannelCreate, ChannelUpdateSettings, ChannelUpdateMapping, ChannelActivate,
         ChannelDeactivate, ChannelDelete],
        None, map[]))
    case ChannelAccountsCredentials =>
      Some(RowDef([], [ChannelReadCredentials, ChannelAccountManage], None, map[]))
    case BookingsRead => Some(RowDef([BookingRead], [BookingRead, NoteCreate], None, map[]))
    case GuestPII => Some(RowDef([BookingReadPii], [BookingReadPii], None, map[]))
    case PaymentInstrument => Some(RowDef([], [BookingReadPaymentInstrument], None, map[]))
    case CreateModifyCancelBooking =>
      Some(RowDef([], [BookingCreate, BookingModify, BookingCancel], None, map[]))
    case AssignUnitCheckInOut => Some(RowDef([], [BookingAssignUnit, BookingCheckInOut], None, map[]))
    case AccessCredentials =>
      Some(RowDef(
        [AccessCredentialRead],
        [AccessCredentialRead, AccessCredentialIssue, AccessCredentialRevoke],
        None, map[]))
    case UnmappedBookingQueue => Some(RowDef([], [BookingResolveUnmapped], None, map[]))
    case TurnoverBoard =>
      Some(RowDef(
        [TurnoverRead, TurnoverReadOwn],
        [TurnoverRead, TurnoverReadOwn, TurnoverUpdate, TurnoverComplete],
        Some([TurnoverReadOwn, TurnoverUpdate, TurnoverComplete]), map[]))
    case AssignCrewsTasks => Some(RowDef([], [TurnoverAssign, ChecklistManage], None, map[]))
    case UnitStatus => Some(RowDef([], [UnitUpdateStatus], Some([UnitUpdateStatus]), map[]))
    case Maintenance =>
      Some(RowDef(
        [MaintenanceRead],
        [MaintenanceRead, MaintenanceCreate, MaintenanceUpdate, MaintenanceAssign],
        Some([MaintenanceRead, MaintenanceUpdate]), map["create" := [MaintenanceCreate]]))
    case Blocks => Some(RowDef([], [BlockManage], Some([BlockManage]), map[]))
    case FoliosAndCharges => Some(RowDef([FolioRead], [FolioRead, FolioUpdate, ChargeCreate], None, map[]))
    case CaptureRefundPayment => Some(RowDef([], [PaymentCapture, PaymentRefund], None, map[]))
    case InvoicesAndTax => Some(RowDef([FolioRead], [FolioRead, InvoiceIssue, TaxManage], None, map[]))
    case OwnersAndAgreements =>
      Some(RowDef(
        [OwnerRead, AgreementRead],
        [OwnerRead, OwnerCreate, OwnerUpdate, AgreementRead, AgreementManage],
        None, map[]))
    case StatementsGenerateApproveSend =>
      Some(RowDef([], [StatementGenerate, StatementApprove, StatementSend], None, map[]))
    case StatementsRead => Some(RowDef([StatementRead], [StatementRead], Some([StatementReadOwn]), map[]))
    case Expenses =>
      Some(RowDef(
        [ExpenseRead],
        [ExpenseRead, ExpenseCreate, ExpenseApprove],
        None, map["create" := [ExpenseCreate], "approve" := [ExpenseCreate, ExpenseApprove]]))
    case Payouts => Some(RowDef([PayoutRead], [PayoutRead, PayoutExecute], None, map[]))
    case GuestMessaging =>
      Some(RowDef([MessageRead], [MessageRead, MessageSend, MessageCloseThread], None, map[]))
    case TemplatesAndAutomation =>
      Some(RowDef([TemplateRead], [TemplateRead, TemplateManage, AutomationManage], None, map[]))
    case Reviews => Some(RowDef([ReviewRead], [ReviewRead, ReviewRespond], None, map[]))
    case OperationalReports => Some(RowDef([ReportRead], [ReportRead], Some([ReportReadOwn]), map[]))
    case FinancialReports =>
      Some(RowDef([ReportReadFinancial], [ReportReadFinancial], Some([ReportReadOwn]), map[]))
    case Exports => Some(RowDef([], [ExportExecute], Some([ExportExecute]), map[]))
    case AuditLog => Some(RowDef([AuditRead], [AuditRead], None, map[]))
    case APIKeysAndWebhooks =>
      Some(RowDef([ApiKeyRead], [ApiKeyRead, ApiKeyCreate, ApiKeyRevoke, WebhookManage], None, map[]))
    case Plugins => Some(RowDef([PluginRead], [PluginRead, PluginInstall, PluginConfigure], None, map[]))
    case Billing => Some(RowDef([BillingRead], [BillingRead, BillingManage], None, map[]))
    case Undefined(_) => None
  }

  ghost predicate NoneSensitive(permissions: seq<Permission>) {
    forall i :: 0 <= i < |permissions| ==> !IsSensitive(permissions[i])
  }

  /** Sensitive permissions stand only among those a tick stands for. */
  ghost predicate SafeRow(row: RowDef) {
    && NoneSensitive(row.read)
    && (row.own.Some? ==> NoneSensitive(row.own.value))
    && (forall k :: k in row.named ==> NoneSensitive(row.named[k]))
  }

  /** The rows as they are keep to that. */
  lemma RowsAreSafe(name: RowLabel)
    requires RowOf(name).Some?
    ensures SafeRow(RowOf(name).value)
  {
    ReadsAreSafe(name);
    OwnsAreSafe(name);
    NamedAreSafe(name);
  }

  lemma ReadsAreSafe(name: RowLabel)
    requires RowOf(name).Some?
    ensures NoneSensitive(RowOf(name).value.read)
  {
  }

  lemma OwnsAreSafe(name: RowLabel)
    requires RowOf(name).Some?
    ensures RowOf(name).value.own.Some? ==> NoneSensitive(RowOf(name).value.own.value)
  {
  }

  lemma NamedAreSafe(name: RowLabel)
    requires RowOf(name).Some?
    ensures forall k :: k in RowOf(name).value.named ==> NoneSensitive(RowOf(name).value.named[k])
  {
  }
}
